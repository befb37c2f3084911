/**
 * A run of three backups, the last two under another block size than the first. The second adopts the size
 * of the first and records the configured one (freezer/engine/rsyncv2/rsyncv2.py:661-679), so the third
 * compares blocks with signatures of another size, and what it misses is not restored.
 */
module SizeChange {
  import opened Bytes
  import opened Files
  import opened BlockSignatures
  import opened BlockDelta
  import opened TreeDelta
  import opened TreeRestore
  import opened ChainRestore
  import opened RestoreFailures
  import opened SignatureSizes
  import P = Planner
  import Adler

  /** Nothing changed since the first backup. */
  function Same(x: Byte, y: Byte): Event {
    RunBackup(P.Config(true, 0, 0, 0.0), 2, 2, OneFile(BEFORE, [x, y]), [PATH], [PATH], 2)
  }

  /** The file repeats its second byte at the end. */
  function Grown(x: Byte, y: Byte): Event {
    RunBackup(P.Config(true, 0, 0, 0.0), 3, 3, OneFile(CHANGED, [x, y, y]), [PATH], [PATH], 2)
  }

  function Growing(x: Byte, y: Byte): seq<Event> {
    [First(x, y), Same(x, y), Grown(x, y)]
  }

  /** A backup on top of the only chain. */
  lemma TopChoice(c: Chain, last: int, config: P.Config, now: int)
    requires P.StoreValid(map[1 := c], last) && config == P.Config(true, 0, 0, 0.0)
    ensures c != [] && P.Previous(map[1 := c], config, now) == P.Outcome.Value(Some(c[|c| - 1]))
    ensures c[|c| - 1].zero == 1
  {
    OneChainRead(map[1 := c], last, c);
    assert P.Increments(c)[c[|c| - 1].level] == c[|c| - 1];
  }

  ghost predicate TellsBlocksOf(base: Record, e: Event, env: Env)
    requires e.RunBackup? && Honest(Some(base), e, env)
  {
    NoCollisions(base.data.seen, e.tree, AdoptedBlockSize(Some(base.data.manifest), e.blockSize), env.hash)
  }

  lemma StepOnTop(c: Chain, e: Event, env: Env, made: Record)
    requires e.RunBackup? && c != [] && c[|c| - 1].zero == 1 && Honest(Some(c[|c| - 1]), e, env)
    requires P.Previous(map[1 := c], e.config, e.now) == P.Outcome.Value(Some(c[|c| - 1]))
    requires made == P.Backup(1, e.timestamp, c[|c| - 1].level + 1, ArchiveFor(Some(c[|c| - 1]), e, env))
    ensures HonestEvent(map[1 := c], e, env) && Step(map[1 := c], e, env) == map[1 := c + [made]]
    ensures TellsSizeTo(map[1 := c], e) <==> TellsSize(Some(c[|c| - 1]))
    ensures TellsBlocks(map[1 := c], e, env) <==> TellsBlocksOf(c[|c| - 1], e, env)
  {
  }

  // ---------- the second backup: nothing to ship, and a size that its signatures do not have ----------

  function Misled(x: Byte, y: Byte, h: Hash): Manifest {
    Manifest(FirstManifest(x, y, h).files, 2)
  }

  lemma SameLevel(x: Byte, y: Byte, h: Hash)
    ensures Complete(FirstManifest(x, y, h).files)
    ensures var l := LevelFor(OneFile(BEFORE, [x, y]), [PATH], Some(FirstManifest(x, y, h)), [PATH], 2, h);
            l.headers == [] && l.payload == [] && l.manifest == Misled(x, y, h)
  {
    var tree, earlier := OneFile(BEFORE, [x, y]), FirstManifest(x, y, h).files;
    assert [PATH][..0] == [];
    assert EntriesFor(tree, [], earlier, 1, h) == [] && EntriesFor(tree, [PATH], earlier, 1, h) == [];
    assert DeletionsFor(tree, []) == [] && DeletionsFor(tree, [PATH]) == [];
    assert NewFiles(tree, earlier, 1, h) == earlier;
  }

  function SameRecord(x: Byte, y: Byte, stream: Data, h: Hash): Record {
    P.Backup(1, 2, 1, Archive(stream, Misled(x, y, h), OneFile(BEFORE, [x, y]), 1))
  }

  lemma SameIsHonest(x: Byte, y: Byte, first: Data, env: Env)
    ensures Honest(Some(FirstRecord(x, y, first, env.hash)), Same(x, y), env)
    ensures TellsBlocksOf(FirstRecord(x, y, first, env.hash), Same(x, y), env)
  {
  }

  lemma SameArchive(x: Byte, y: Byte, first: Data, env: Env) returns (stream: Data)
    requires Honest(Some(FirstRecord(x, y, first, env.hash)), Same(x, y), env)
    ensures ArchiveFor(Some(FirstRecord(x, y, first, env.hash)), Same(x, y), env)
            == Archive(stream, Misled(x, y, env.hash), OneFile(BEFORE, [x, y]), 1)
    ensures stream == env.codec.encode([])
  {
    SameLevel(x, y, env.hash);
    stream := env.codec.encode([]);
    assert stream + [] == stream;
  }

  // ---------- the third backup: blocks of two against signatures of one ----------

  function PatchFirst(): Header {
    Entry(PATH, CHANGED.mode, CHANGED.mtime, 3, true, Some(Deltas(2, [0])))
  }

  lemma BlocksOfTwo(x: Byte, y: Byte)
    ensures BlockCount(3, 2) == 2 && BlockAt([x, y, y], 2, 0) == [x, y] && BlockAt([x, y, y], 2, 1) == [y]
    ensures BlockCount(2, 2) == 1 && BlockAt([x, y], 2, 0) == [x, y]
  {
    assert Offset(1, 2) == 2;
    assert BlockCount(3, 2) == 1 + BlockCount(1, 2) && BlockCount(1, 2) == 1 + BlockCount(0, 2);
  }

  lemma AdlerOfTwo(x: Byte, y: Byte)
    ensures Adler.Adler32([x, y]) == Adler.Halves(1 + x + y, 2 + 2 * x + y)
  {
    assert [x, y][..1] == [x];
    AdlerOfOne(x);
  }

  /** A block of two bytes is not that of its first byte, unless the second is zero. */
  lemma TwoBytesTell(x: Byte, y: Byte)
    requires y != 0
    ensures Adler.Adler32Fast([x, y]) != Adler.Adler32Fast([x])
  {
    Adler.PackRoundTrip([x]);
    Adler.PackRoundTrip([x, y]);
    AdlerOfOne(x);
    AdlerOfTwo(x, y);
  }

  /** The first block disagrees; the last byte agrees with the second one before. */
  lemma GrownScan(x: Byte, y: Byte, h: Hash)
    requires y != 0
    ensures var s := FirstManifest(x, y, h).files[PATH].signature.value;
            DeltasOf([x, y, y], s, 2, h) == Deltas(2, [0]) && DeltaBytes([x, y, y], 2, [0]) == [x, y]
  {
    var s := FirstManifest(x, y, h).files[PATH].signature.value;
    BlocksOfTwo(x, y);
    TwoBytesTell(x, y);
    assert !Matches(s, 0, [x, y], h) && Matches(s, 1, [y], h);
    assert ChangedBlocks([x, y, y], s, 2, h, 0) == [];
    assert ChangedBlocks([x, y, y], s, 2, h, 1) == [0];
    assert ChangedBlocks([x, y, y], s, 2, h, 2) == [0];
    assert [0][..0] == [];
    assert DeltaBytes([x, y, y], 2, []) == [];
  }

  /** What agrees is equal: the digests are not to blame. */
  lemma GrownTells(x: Byte, y: Byte, h: Hash)
    requires y != 0
    ensures DigestsTell([x, y], [x, y, y], 1, 2, h)
  {
    TwoBlocks(x, y, h);
    BlocksOfTwo(x, y);
    TwoBytesTell(x, y);
  }

  lemma GrownLevel(x: Byte, y: Byte, h: Hash)
    requires y != 0
    ensures Complete(Misled(x, y, h).files)
    ensures var l := LevelFor(OneFile(CHANGED, [x, y, y]), [PATH], Some(Misled(x, y, h)), [PATH], 2, h);
            l.headers == [PatchFirst()] && l.payload == [x, y]
  {
    var tree, earlier := OneFile(CHANGED, [x, y, y]), Misled(x, y, h).files;
    GrownScan(x, y, h);
    assert EntryFor(PATH, tree[PATH], earlier, 2, h) == PatchFirst();
    assert [PATH][..0] == [];
    assert EntriesFor(tree, [], earlier, 2, h) == [];
    assert EntriesFor(tree, [PATH], earlier, 2, h) == [PatchFirst()];
    assert DeletionsFor(tree, []) == [] && DeletionsFor(tree, [PATH]) == [];
    assert [PatchFirst()] + [] == [PatchFirst()];
    GrownPayload(x, y, h);
  }

  lemma GrownPayload(x: Byte, y: Byte, h: Hash)
    requires y != 0
    ensures HeadersIn(OneFile(CHANGED, [x, y, y]), [PatchFirst()])
    ensures Payload(OneFile(CHANGED, [x, y, y]), [PatchFirst()], 2) == [x, y]
  {
    GrownScan(x, y, h);
    assert [PatchFirst()][..0] == [];
    assert Payload(OneFile(CHANGED, [x, y, y]), [], 2) == [];
  }

  lemma GrownIsHonest(x: Byte, y: Byte, same: Data, env: Env)
    ensures Honest(Some(SameRecord(x, y, same, env.hash)), Grown(x, y), env)
    ensures !TellsSize(Some(SameRecord(x, y, same, env.hash)))
    ensures TellsBlocksOf(SameRecord(x, y, same, env.hash), Grown(x, y), env)
  {
    BlocksOfTwo(x, y);
    assert NoCollision([x, y], [x, y, y], 2, env.hash);
  }

  lemma GrownArchive(x: Byte, y: Byte, same: Data, env: Env) returns (archive: Archive)
    requires y != 0 && Honest(Some(SameRecord(x, y, same, env.hash)), Grown(x, y), env)
    ensures archive == ArchiveFor(Some(SameRecord(x, y, same, env.hash)), Grown(x, y), env)
    ensures archive.stream == env.codec.encode([PatchFirst()]) + [x, y]
    ensures archive.seen == OneFile(CHANGED, [x, y, y])
  {
    GrownLevel(x, y, env.hash);
    archive := ArchiveFor(Some(SameRecord(x, y, same, env.hash)), Grown(x, y), env);
  }

  // ---------- the run ----------

  lemma ThreeBackups(x: Byte, y: Byte, env: Env) returns (c: Chain)
    requires y != 0
    ensures HonestRun(Growing(x, y), env) && BlocksTold(Growing(x, y), env) && !SizesTold(Growing(x, y), env)
    ensures Run(Growing(x, y), env) == map[1 := c]
    ensures |c| == 3 && c[0].level == 0 && c[1].level == 1 && c[2].level == 2
    ensures c[0].data.stream == env.codec.encode([Create()]) + [x, y] && c[1].data.stream == env.codec.encode([])
    ensures c[2].data.stream == env.codec.encode([PatchFirst()]) + [x, y]
  {
    var first := OneBackup(x, y, env);
    c := [FirstRecord(x, y, first, env.hash)];
    var same := SecondRun(x, y, first, c, env);
    c := c + [SameRecord(x, y, same, env.hash)];
    var archive := ThirdRun(x, y, first, same, c, env);
    c := c + [P.Backup(1, 3, 2, archive)];
  }

  lemma SecondRun(x: Byte, y: Byte, first: Data, c: Chain, env: Env) returns (same: Data)
    requires ToldRun([First(x, y)], env) && Run([First(x, y)], env) == map[1 := c]
    requires c == [FirstRecord(x, y, first, env.hash)]
    ensures HonestRun([First(x, y), Same(x, y)], env) && BlocksTold([First(x, y), Same(x, y)], env)
    ensures Run([First(x, y), Same(x, y)], env) == map[1 := c + [SameRecord(x, y, same, env.hash)]]
    ensures same == env.codec.encode([])
  {
    InTime(x, y);
    StoresAreValid([First(x, y)], env);
    TopChoice(c, 1, Same(x, y).config, 2);
    SameIsHonest(x, y, first, env);
    same := SameArchive(x, y, first, env);
    StepOnTop(c, Same(x, y), env, SameRecord(x, y, same, env.hash));
    RunSnoc([First(x, y)], Same(x, y), env);
    assert [First(x, y)] + [Same(x, y)] == [First(x, y), Same(x, y)];
  }

  lemma ThirdRun(x: Byte, y: Byte, first: Data, same: Data, c: Chain, env: Env) returns (archive: Archive)
    requires y != 0 && HonestRun([First(x, y), Same(x, y)], env) && BlocksTold([First(x, y), Same(x, y)], env)
    requires Run([First(x, y), Same(x, y)], env) == map[1 := c]
    requires c == [FirstRecord(x, y, first, env.hash), SameRecord(x, y, same, env.hash)]
    ensures HonestRun(Growing(x, y), env) && BlocksTold(Growing(x, y), env) && !SizesTold(Growing(x, y), env)
    ensures Run(Growing(x, y), env) == map[1 := c + [P.Backup(1, 3, 2, archive)]]
    ensures archive.stream == env.codec.encode([PatchFirst()]) + [x, y]
    ensures archive.seen == OneFile(CHANGED, [x, y, y])
  {
    InTime(x, y);
    StoresAreValid([First(x, y), Same(x, y)], env);
    TopChoice(c, 2, Grown(x, y).config, 3);
    GrownIsHonest(x, y, same, env);
    archive := GrownArchive(x, y, same, env);
    StepOnTop(c, Grown(x, y), env, P.Backup(1, 3, 2, archive));
    RunSnoc([First(x, y), Same(x, y)], Grown(x, y), env);
    assert [First(x, y), Same(x, y)] + [Grown(x, y)] == Growing(x, y);
  }

  lemma InTime(x: Byte, y: Byte)
    ensures ClockIncreases([First(x, y)]) && LastTime([First(x, y)]) == 1
    ensures ClockIncreases([First(x, y), Same(x, y)]) && LastTime([First(x, y), Same(x, y)]) == 2
    ensures ClockIncreases(Growing(x, y)) && LastTree(Growing(x, y)) == OneFile(CHANGED, [x, y, y])
    ensures LastTime(Growing(x, y)) == 3
  {
    assert [First(x, y)][..0] == [];
    assert LastTime([]) == 0 && ClockIncreases([]);
    assert [First(x, y), Same(x, y)][..1] == [First(x, y)];
    assert Growing(x, y)[..2] == [First(x, y), Same(x, y)];
  }

  // ---------- the restore ----------

  lemma DictionaryOfThree(c: Chain)
    requires |c| == 3 && c[0].level == 0 && c[1].level == 1 && c[2].level == 2
    ensures P.Increments(c) == map[0 := c[0], 1 := c[1], 2 := c[2]]
  {
    DictionaryOfTwo(c[..2]);
  }

  lemma CreateRestores(x: Byte, y: Byte, codec: Codec)
    requires codec.Sound()
    ensures RestoreStream(map[], 0, 2, codec, codec.encode([Create()]) + [x, y])
            == After(View(OneFile(BEFORE, [x, y])), [], Done)
  {
    DecodesTo(codec, [Create()], [x, y]);
    assert [Create()][..0] == [];
    assert RestoreAll(map[], [], 0, 2, [x, y]) == After(map[], [x, y], Done);
    assert [x, y][..2] == [x, y] && [x, y][2..] == [];
    assert map[PATH := Restored(BEFORE.mode, BEFORE.mtime, [x, y])] == View(OneFile(BEFORE, [x, y]));
  }

  lemma NothingRestores(fs: Target, codec: Codec)
    requires codec.Sound()
    ensures RestoreStream(fs, 1, 2, codec, codec.encode([])) == After(fs, [], Done)
  {
    DecodesTo(codec, [], []);
    assert codec.encode([]) + [] == codec.encode([]);
  }

  /** The first block is written again, and the new last byte is left zero. */
  lemma PatchFirstRestores(x: Byte, y: Byte, codec: Codec)
    requires codec.Sound()
    ensures RestoreStream(View(OneFile(BEFORE, [x, y])), 2, 2, codec, codec.encode([PatchFirst()]) + [x, y])
            == After(View(OneFile(CHANGED, [x, y, 0])), [], Done)
  {
    DecodesTo(codec, [PatchFirst()], [x, y]);
    var fs := View(OneFile(BEFORE, [x, y]));
    assert Offset(0, 2) == 0;
    assert [x, y][0..2] == [x, y] && [x, y][2..] == [];
    assert WriteAt([x, y], 0, [x, y]) == [x, y];
    assert PatchedContent([x, y], 3, Deltas(2, [0]), 2, [x, y]) == [x, y, 0];
    assert RestoreOne(fs, PatchFirst(), 2, 2, [x, y]) == After(View(OneFile(CHANGED, [x, y, 0])), [], Done);
    assert [PatchFirst()][..0] == [];
    assert RestoreAll(fs, [], 2, 2, [x, y]) == After(fs, [x, y], Done);
  }

  lemma ThreeLevels(x: Byte, y: Byte, c: Chain, env: Env, pipes: Pipes)
    requires env.codec.Sound() && |c| == 3 && P.Increments(c) == map[0 := c[0], 1 := c[1], 2 := c[2]]
    requires c[0].data.stream == env.codec.encode([Create()]) + [x, y] && c[1].data.stream == env.codec.encode([])
    requires c[2].data.stream == env.codec.encode([PatchFirst()]) + [x, y] && Delivers(P.Increments(c), 3, pipes)
    ensures RestoreLevels(P.Increments(c), 3, 2, env.codec, pipes)
            == Report(View(OneFile(CHANGED, [x, y, 0])), true, false)
  {
    var inc := P.Increments(c);
    assert Flatten(pipes(0)) == c[0].data.stream && Flatten(pipes(1)) == c[1].data.stream;
    assert Flatten(pipes(2)) == c[2].data.stream;
    CreateRestores(x, y, env.codec);
    NothingRestores(View(OneFile(BEFORE, [x, y])), env.codec);
    PatchFirstRestores(x, y, env.codec);
    assert RestoreLevels(inc, 0, 2, env.codec, pipes) == Report(map[], true, false);
    assert RestoreLevels(inc, 1, 2, env.codec, pipes) == Report(View(OneFile(BEFORE, [x, y])), true, false);
    assert RestoreLevels(inc, 2, 2, env.codec, pipes) == Report(View(OneFile(BEFORE, [x, y])), true, false);
  }

  /**
   * The block size changes from 1 to 2 before the second backup and stays. Without any collision of digests,
   * and with every level arriving whole, the restore under the size of the last backup reports success and
   * gives a file whose last byte is zero.
   */
  lemma ChangedSizeLosesChange(x: Byte, y: Byte, env: Env, pipes: Pipes) returns (inc: map<nat, Record>)
    requires y != 0 && env.codec.Sound()
    ensures HonestRun(Growing(x, y), env) && ClockIncreases(Growing(x, y))
    ensures BlocksTold(Growing(x, y), env) && !SizesTold(Growing(x, y), env)
    ensures LastTree(Growing(x, y)) == OneFile(CHANGED, [x, y, y])
    ensures DigestsTell([x, y], [x, y, y], 1, 2, env.hash)
    ensures P.LatestIncrements(Run(Growing(x, y), env), 0) == Some(inc) && inc != map[] && P.HighestLevel(inc) == 2
    ensures Delivers(inc, 3, pipes) ==>
              RestoreLevels(inc, 3, 2, env.codec, pipes) == Report(View(OneFile(CHANGED, [x, y, 0])), true, false)
    ensures View(OneFile(CHANGED, [x, y, 0])) != View(OneFile(CHANGED, [x, y, y]))
  {
    var c := ThreeBackups(x, y, env);
    InTime(x, y);
    GrownTells(x, y, env.hash);
    StoresAreValid(Growing(x, y), env);
    OneChainRead(Run(Growing(x, y), env), 3, c);
    DictionaryOfThree(c);
    inc := P.Increments(c);
    if Delivers(inc, 3, pipes) {
      ThreeLevels(x, y, c, env, pipes);
    }
    assert View(OneFile(CHANGED, [x, y, 0]))[PATH].content[2] == 0;
    assert View(OneFile(CHANGED, [x, y, y]))[PATH].content[2] == y;
  }
}
