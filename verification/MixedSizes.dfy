/**
 * Runs whose configured block size changes: the levels of one chain then have patches and signatures of
 * several sizes (freezer/engine/rsyncv2/rsyncv2.py:661-679), and a restore reads them all with one.
 */
module MixedSizes {
  import opened Bytes
  import opened Files
  import opened BlockSignatures
  import opened BlockDelta
  import opened TreeDelta
  import opened TreeRestore
  import opened BlockSizes
  import opened SignatureSizes
  import opened ChainRestore
  import P = Planner
  import RestoreDate

  // ---------- one file: when lengths and positions are enough ----------

  /** The blocks fit the other size. */
  predicate Placed(d: Deltas, bs: nat, bs': nat) {
    d.blocks != [] && bs' != bs ==>
      FromStart(d.blocks) && Offset(|d.blocks| - 1, bs') < d.length <= Offset(|d.blocks|, bs')
  }

  /** The signature has blocks of size `a`; the scan one of size `bs`; the restore one of size `bs'`. */
  ghost predicate Serves(before: Data, after: Data, sig: Signature, a: nat, bs: nat, bs': nat, h: Hash)
    requires a > 0 && bs > 0
  {
    && sig == SignatureOf(before, a, h) && DigestsTell(before, after, a, bs, h)
    && (a == bs || forall i: nat :: !AsLongAt(|before|, |after|, a, bs, i))
    && Placed(DeltasOf(after, sig, bs, h), bs, bs')
  }

  /** Three sizes, and still the new file. */
  lemma ServesPatches(before: Data, after: Data, sig: Signature, a: nat, bs: nat, bs': nat, h: Hash)
    requires a > 0 && bs > 0 && bs' > 0 && Serves(before, after, sig, a, bs, bs', h)
    ensures PatchesTo(before, after, sig, bs, bs', h)
  {
    var d := DeltasOf(after, sig, bs, h);
    RightWithoutSuchBlock(before, after, a, bs, h);
    ScanIsBlocksOf(after, sig, bs, h);
    if d.length > 0 {
      var shipped := DeltaBytes(after, bs, d.blocks);
      PatchesAgreeIff(after, d.blocks, bs, bs');
      assert d == Deltas(|shipped|, d.blocks);
      assert PatchedContent(before, |after|, d, bs', shipped) == PatchedContent(before, |after|, d, bs, shipped);
    }
  }

  /** Every file that was modified in place is such a file, for the size its own signature has. */
  ghost predicate AllServe(before: Tree, after: Tree, files: FilesMeta, bs: nat, bs': nat, h: Hash)
    requires bs > 0
  {
    forall p :: p in before && p in after && p in files && before[p].stat.mode == after[p].stat.mode
                && IsModified(before[p].stat, after[p].stat) && files[p].signature.Some?
                ==> exists a: nat ::
                      a > 0 && Serves(before[p].content, after[p].content, files[p].signature.value, a, bs, bs', h)
  }

  lemma AllServePatch(before: Tree, after: Tree, files: FilesMeta, bs: nat, bs': nat, h: Hash)
    requires bs > 0 && bs' > 0 && AllServe(before, after, files, bs, bs', h)
    ensures AllPatch(before, after, files, bs, bs', h)
  {
    forall p | p in before && p in after && p in files && before[p].stat.mode == after[p].stat.mode
               && IsModified(before[p].stat, after[p].stat) && files[p].signature.Some?
      ensures PatchesTo(before[p].content, after[p].content, files[p].signature.value, bs, bs', h)
    {
      var a: nat :| a > 0 && Serves(before[p].content, after[p].content, files[p].signature.value, a, bs, bs', h);
      ServesPatches(before[p].content, after[p].content, files[p].signature.value, a, bs, bs', h);
    }
  }

  // ---------- what every backup keeps, whatever its sizes ----------

  /** Every signature is that of the file's content, under some size. */
  ghost predicate SignedSomehow(files: FilesMeta, tree: Tree, h: Hash) {
    && Tracks(files, tree)
    && forall p :: p in tree ==> HasSignature(tree[p].content, files[p].signature.value, h)
  }

  ghost predicate HasSignature(content: Data, sig: Signature, h: Hash) {
    exists a: nat :: a > 0 && sig == SignatureOf(content, a, h)
  }

  /** A run over a tree with such metadata writes such metadata. */
  lemma ManifestSigned(before: Tree, after: Tree, listing: seq<Path>, oldListing: seq<Path>,
                       manifest: Option<Manifest>, configured: nat, h: Hash)
    requires configured > 0 && SignedSomehow(OldFiles(manifest), before, h) && Faithful(before, after)
    requires Lists(listing, after.Keys) && Lists(oldListing, before.Keys)
    ensures SignedSomehow(LevelFor(after, listing, manifest, oldListing, configured, h).manifest.files, after, h)
  {
    var bs, earlier := AdoptedBlockSize(manifest, configured), OldFiles(manifest);
    var files := NewFiles(after, earlier, bs, h);
    forall p | p in after
      ensures files[p].stat == after[p].stat && files[p].signature.Some?
              && HasSignature(after[p].content, files[p].signature.value, h)
    {
      SkippedMeansSameStat(before, after, earlier, p);
      if Skipped(p, after[p].stat, earlier) {
        assert HasSignature(before[p].content, earlier[p].signature.value, h);
      } else {
        assert files[p].signature.value == SignatureOf(after[p].content, bs, h);
      }
    }
  }

  ghost predicate StoreSigned(s: Store, h: Hash) {
    forall z, i :: z in s && 0 <= i < |s[z]| ==> SignedSomehow(s[z][i].data.manifest.files, s[z][i].data.seen, h)
  }

  lemma SignedAt(s: Store, z: int, i: nat, h: Hash)
    requires StoreSigned(s, h) && z in s && i < |s[z]|
    ensures SignedSomehow(s[z][i].data.manifest.files, s[z][i].data.seen, h)
  {
  }

  /** The chosen base is a record of the newest chain, just below the next level. */
  lemma BaseOfPrevious(s: Store, last: int, e: Event, h: Hash)
    requires P.StoreValid(s, last) && StoreSigned(s, h) && e.RunBackup?
    requires P.Previous(s, e.config, e.now).Value? && P.Previous(s, e.config, e.now).value.Some?
    ensures var prev := P.Previous(s, e.config, e.now).value;
            var p := prev.value;
            && p.zero in s
            && SignedSomehow(OldFiles(ManifestOf(prev)), SeenBy(prev), h)
            && BaseTree(P.Increments(s[p.zero]), p.level + 1) == SeenBy(prev)
            && p.level + 1 >= s[p.zero][|s[p.zero]| - 1].level
  {
    P.PreviousOfValid(s, last, e.config, e.now);
    var p := P.Previous(s, e.config, e.now).value.value;
    var i := P.IncrementIndex(p.zero, s[p.zero], p.level);
    SignedAt(s, p.zero, i, h);
    BaseTreeIs(P.Increments(s[p.zero]), p.level, p);
  }

  lemma AddSigned(s: Store, prev: Option<Record>, timestamp: int, data: Archive, h: Hash)
    requires StoreSigned(s, h) && SignedSomehow(data.manifest.files, data.seen, h)
    ensures StoreSigned(P.Add(s, prev, timestamp, data), h)
  {
  }

  /** What a backup over such a base stores. */
  lemma ArchiveSigned(prev: Option<Record>, e: Event, env: Env)
    requires e.RunBackup? && Honest(prev, e, env)
    requires SignedSomehow(OldFiles(ManifestOf(prev)), SeenBy(prev), env.hash)
    ensures SignedSomehow(ArchiveFor(prev, e, env).manifest.files, e.tree, env.hash)
  {
    ManifestSigned(SeenBy(prev), e.tree, e.listing, e.oldListing, ManifestOf(prev), e.blockSize, env.hash);
  }

  lemma StepSigned(s: Store, last: int, e: Event, env: Env)
    requires P.StoreValid(s, last) && StoreSigned(s, env.hash) && HonestEvent(s, e, env)
    ensures StoreSigned(Step(s, e, env), env.hash)
  {
    if e.RunBackup? {
      var prev := StepIsAdd(s, last, e, env);
      if prev.Some? {
        BaseOfPrevious(s, last, e, env.hash);
      }
      ArchiveSigned(prev, e, env);
      AddSigned(s, prev, e.timestamp, ArchiveFor(prev, e, env), env.hash);
    }
  }

  /** After every honest run: whatever sizes were configured, every signature is that of its file's content. */
  lemma {:induction false} RunsAreSigned(events: seq<Event>, env: Env)
    requires HonestRun(events, env) && ClockIncreases(events)
    ensures StoreSigned(Run(events, env), env.hash)
  {
    if events != [] {
      var p := events[..|events| - 1];
      RunsAreSigned(p, env);
      StoresAreValid(p, env);
      StepSigned(Run(p, env), LastTime(p), events[|events| - 1], env);
    }
  }

  // ---------- one chain read with one size ----------

  /** Of a backup built on chain `z`: all its patches are right when they are read with size `bs'`. */
  ghost predicate PatchesOn(s: Store, e: Event, z: int, bs': nat, env: Env)
    requires bs' > 0 && HonestEvent(s, e, env)
  {
    e.RunBackup? ==>
      match P.Previous(s, e.config, e.now)
      case Raised => true
      case Value(prev) =>
        prev.Some? && prev.value.zero == z ==>
          AllPatch(SeenBy(prev), e.tree, OldFiles(ManifestOf(prev)),
                   AdoptedBlockSize(ManifestOf(prev), e.blockSize), bs', env.hash)
  }

  /** The same for every backup of a run that was built on chain `z`. */
  ghost predicate PatchedRun(events: seq<Event>, z: int, bs': nat, env: Env)
    requires bs' > 0 && HonestRun(events, env)
  {
    events == []
    || (PatchedRun(events[..|events| - 1], z, bs', env)
        && PatchesOn(Run(events[..|events| - 1], env), events[|events| - 1], z, bs', env))
  }

  /** Where neither sizes nor digests mislead, that is so for the chain's own size. */
  lemma ToldPatches(s: Store, last: int, e: Event, z: int, env: Env)
    requires P.StoreValid(s, last) && StoreSound(s, env) && z in s && HonestEvent(s, e, env)
    requires TellsSizeTo(s, e) && TellsBlocks(s, e, env)
    ensures PatchesOn(s, e, z, BlockSizeOf(s[z]), env)
  {
    if e.RunBackup? {
      P.PreviousOfValid(s, last, e.config, e.now);
      var prev := P.Previous(s, e.config, e.now).value;
      if prev.Some? && prev.value.zero == z {
        PreviousIsSound(s, last, e, env);
        DescribedPatch(SeenBy(prev), e.tree, OldFiles(ManifestOf(prev)), BlockSizeOf(s[z]), env.hash);
      }
    }
  }

  /** The stream of a backup whose patches are right rebuilds its tree. */
  lemma ArchiveRebuilds(prev: Option<Record>, e: Event, env: Env, level: nat, bs': nat)
    requires e.RunBackup? && Honest(prev, e, env) && bs' > 0 && env.codec.Sound()
    requires Tracks(OldFiles(ManifestOf(prev)), SeenBy(prev))
    requires AllPatch(SeenBy(prev), e.tree, OldFiles(ManifestOf(prev)),
                      AdoptedBlockSize(ManifestOf(prev), e.blockSize), bs', env.hash)
    requires prev.Some? ==> level > 0
    ensures RestoreStream(View(SeenBy(prev)), level, bs', env.codec, ArchiveFor(prev, e, env).stream)
            == After(View(e.tree), [], Done)
  {
    var before, m, h := SeenBy(prev), ManifestOf(prev), env.hash;
    var l := LevelFor(e.tree, e.listing, m, e.oldListing, e.blockSize, h);
    LevelRestores(before, e.tree, e.listing, e.oldListing, m, e.blockSize, h, level, bs', []);
    LevelRoundTripIff(before, e.tree);
    assert l.payload + [] == l.payload;
    StreamRestores(View(before), level, bs', env.codec, l, View(e.tree));
  }

  lemma AppendRebuilds(z: int, c: Chain, made: Record, bs: nat, env: Env)
    requires bs > 0 && P.ChainValid(z, c) && ChainRebuilds(c, bs, env) && made.level >= c[|c| - 1].level
    requires Rebuilds(P.Increments(c), made, bs, env)
    ensures ChainRebuilds(c + [made], bs, env)
  {
    var c' := c + [made];
    forall i | 0 <= i < |c'| ensures Rebuilds(P.Increments(c'), c'[i], bs, env) {
      AppendKeepsBases(z, c, made, if i < |c| then i else 0);
      assert i < |c| ==> Rebuilds(P.Increments(c), c[i], bs, env);
    }
  }

  lemma SingleRebuilds(made: Record, bs: nat, env: Env)
    requires bs > 0 && made.level == 0 && Rebuilds(map[], made, bs, env)
    ensures ChainRebuilds([made], bs, env)
  {
  }

  /** If it is there, chain `z` rebuilds its trees under the size. */
  ghost predicate RebuildsAt(s: Store, z: int, bs: nat, env: Env)
    requires bs > 0
  {
    z in s ==> ChainRebuilds(s[z], bs, env)
  }

  lemma BackupRebuilds(s: Store, last: int, e: Event, z: int, bs': nat, env: Env)
    requires P.StoreValid(s, last) && StoreSigned(s, env.hash) && bs' > 0 && RebuildsAt(s, z, bs', env)
    requires e.RunBackup? && e.timestamp > last && HonestEvent(s, e, env) && env.codec.Sound()
    requires PatchesOn(s, e, z, bs', env)
    ensures RebuildsAt(Step(s, e, env), z, bs', env)
  {
    var prev := StepIsAdd(s, last, e, env);
    var archive := ArchiveFor(prev, e, env);
    if prev.None? {
      ArchiveRebuilds(prev, e, env, 0, bs');
      SingleRebuilds(P.Backup(e.timestamp, e.timestamp, 0, archive), bs', env);
    } else if prev.value.zero == z {
      BaseOfPrevious(s, last, e, env.hash);
      ArchiveRebuilds(prev, e, env, prev.value.level + 1, bs');
      AppendRebuilds(z, s[z], P.Backup(z, e.timestamp, prev.value.level + 1, archive), bs', env);
    }
  }

  lemma {:induction false} RunRebuilds(events: seq<Event>, z: int, bs': nat, env: Env)
    requires HonestRun(events, env) && ClockIncreases(events) && env.codec.Sound()
    requires bs' > 0 && PatchedRun(events, z, bs', env)
    ensures RebuildsAt(Run(events, env), z, bs', env)
  {
    if events != [] {
      var p, e := events[..|events| - 1], events[|events| - 1];
      RunRebuilds(p, z, bs', env);
      StoresAreValid(p, env);
      RunsAreSigned(p, env);
      if e.RunBackup? {
        BackupRebuilds(Run(p, env), LastTime(p), e, z, bs', env);
      }
    }
  }

  // ---------- end to end ----------

  /**
   * After any honest run, whatever block sizes were configured on the way: restoring the newest chain under any
   * one size gives exactly the tree that the last backup saw, as long as the patches of that chain are right
   * under it.
   */
  lemma RestoreUnderAnySize(events: seq<Event>, s: Store, env: Env, pipes: Pipes, bs': nat)
    requires HonestRun(events, env) && ClockIncreases(events) && s == Run(events, env) && env.codec.Sound()
    requires s != map[] && bs' > 0
    ensures P.Zeros(s, 0) != {} && P.LatestIncrements(s, 0).Some?
    ensures var inc, z := P.LatestIncrements(s, 0).value, P.Greatest(P.Zeros(s, 0));
            inc != map[]
            && var n := P.HighestLevel(inc) + 1;
               (PatchedRun(events, z, bs', env) && Delivers(inc, n, pipes) ==>
                  RestoreLevels(inc, n, bs', env.codec, pipes) == Report(View(LastTree(events)), true, false))
  {
    StoresAreValid(events, env);
    P.ZerosOfNonEmpty(s);
    P.NewestChain(s, LastTime(events));
    NewestIsLast(events, s, env);
    var z := P.Greatest(P.Zeros(s, 0));
    if PatchedRun(events, z, bs', env) {
      RunRebuilds(events, z, bs', env);
      TopRestores(z, s[z], bs', env, pipes);
    }
  }

  /** A restore with a date does the same for the most recent backup by then, unless its level was made again. */
  lemma DatedRestoreUnderAnySize(events: seq<Event>, s: Store, env: Env, pipes: Pipes, date: int, z: int, i: nat,
                                 bs': nat)
    requires HonestRun(events, env) && ClockIncreases(events) && s == Run(events, env) && env.codec.Sound()
    requires date != 0 && RestoreDate.MostRecent(s, date, z, i) && P.LastOfLevel(s[z], i)
    requires bs' > 0 && PatchedRun(events, z, bs', env)
    ensures P.LatestIncrements(s, date).Some? && P.LatestIncrements(s, date).value != map[]
    ensures var inc := P.LatestIncrements(s, date).value;
            var n := P.HighestLevel(inc) + 1;
            Delivers(inc, n, pipes) ==>
              RestoreLevels(inc, n, bs', env.codec, pipes) == Report(View(s[z][i].data.seen), true, false)
  {
    StoresAreValid(events, env);
    RunRebuilds(events, z, bs', env);
    DatedIsPrefix(s, LastTime(events), date, z, i);
    PrefixRestores(z, s[z], bs', env, i, P.LatestIncrements(s, date).value, pipes);
  }
}
