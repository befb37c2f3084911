/**
 * A run of two backups, of one file whose second byte changes, restored in ways that the agent reports as
 * a success (freezer/engine/engine.py:221-306).
 */
module RestoreFailures {
  import opened Bytes
  import opened Files
  import opened BlockSignatures
  import opened BlockDelta
  import opened BlockSizes
  import opened TreeDelta
  import opened TreeRestore
  import opened ChainRestore
  import P = Planner
  import Adler

  const PATH: Path := "f"
  const BEFORE := Stat(0x81a4, 1, 1)
  const CHANGED := Stat(0x81a4, 2, 2)

  function OneFile(stat: Stat, content: Data): Tree {
    map[PATH := SourceFile(stat, content)]
  }

  function First(x: Byte, y: Byte): Event {
    RunBackup(P.Config(true, 0, 0, 0.0), 1, 1, OneFile(BEFORE, [x, y]), [PATH], [], 1)
  }

  function Second(x: Byte, z: Byte): Event {
    RunBackup(P.Config(true, 0, 0, 0.0), 2, 2, OneFile(CHANGED, [x, z]), [PATH], [PATH], 1)
  }

  lemma AdlerOfOne(x: Byte)
    ensures Adler.Adler32([x]) == Adler.Halves(1 + x, 1 + x)
  {
  }

  /** Single bytes never share an Adler-32. */
  lemma OneByteTells(x: Byte, y: Byte)
    ensures Adler.Adler32Fast([x]) == Adler.Adler32Fast([y]) <==> x == y
  {
    Adler.PackRoundTrip([x]);
    Adler.PackRoundTrip([y]);
    AdlerOfOne(x);
    AdlerOfOne(y);
  }

  /** The blocks of one byte of a file of two. */
  lemma TwoBlocks(x: Byte, y: Byte, h: Hash)
    ensures BlockCount(2, 1) == 2 && BlockAt([x, y], 1, 0) == [x] && BlockAt([x, y], 1, 1) == [y]
    ensures var s := SignatureOf([x, y], 1, h);
            s.weak == [Adler.Adler32Fast([x]), Adler.Adler32Fast([y])] && s.strong == [h([x]), h([y])]
  {
    assert Offset(1, 1) == 1;
    assert BlockCount(2, 1) == 1 + BlockCount(1, 1) && BlockCount(1, 1) == 1 + BlockCount(0, 1);
  }

  /** Only the second block disagrees. */
  lemma SecondBlockDiffers(x: Byte, y: Byte, z: Byte, h: Hash)
    requires y != z
    ensures var s := SignatureOf([x, y], 1, h);
            Matches(s, 0, BlockAt([x, z], 1, 0), h) && !Matches(s, 1, BlockAt([x, z], 1, 1), h)
  {
    TwoBlocks(x, y, h);
    TwoBlocks(x, z, h);
    OneByteTells(y, z);
  }

  lemma SecondBlockCollidesNot(x: Byte, y: Byte, z: Byte, h: Hash)
    requires y != z
    ensures NoCollision([x, y], [x, z], 1, h)
  {
    TwoBlocks(x, y, h);
    TwoBlocks(x, z, h);
    SecondBlockDiffers(x, y, z, h);
  }

  /** A scan of two blocks of which only the second disagrees. */
  lemma ScanOfTwo(data: Data, s: Signature, h: Hash)
    requires Matches(s, 0, BlockAt(data, 1, 0), h) && !Matches(s, 1, BlockAt(data, 1, 1), h)
    ensures ChangedBlocks(data, s, 1, h, 2) == [1]
  {
    assert ChangedBlocks(data, s, 1, h, 0) == [];
    assert ChangedBlocks(data, s, 1, h, 1) == [];
  }

  /** The second byte is what is shipped. */
  lemma SecondByteShips(x: Byte, y: Byte, z: Byte, h: Hash)
    requires y != z
    ensures NoCollision([x, y], [x, z], 1, h)
    ensures DeltasOf([x, z], SignatureOf([x, y], 1, h), 1, h) == Deltas(1, [1])
    ensures DeltaBytes([x, z], 1, [1]) == [z]
  {
    SecondBlockCollidesNot(x, y, z, h);
    SecondBlockDiffers(x, y, z, h);
    ScanOfTwo([x, z], SignatureOf([x, y], 1, h), h);
    TwoBlocks(x, z, h);
    assert [1][..0] == [];
    assert DeltaBytes([x, z], 1, [1]) == DeltaBytes([x, z], 1, []) + [z];
  }

  function FirstManifest(x: Byte, y: Byte, h: Hash): (m: Manifest) {
    Manifest(map[PATH := FileMeta(BEFORE, Some(Signature([Adler.Adler32Fast([x]), Adler.Adler32Fast([y])],
                                                         [h([x]), h([y])])))], 1)
  }

  lemma FirstLevel(x: Byte, y: Byte, h: Hash)
    ensures var l := LevelFor(OneFile(BEFORE, [x, y]), [PATH], None, [], 1, h);
            l.manifest == FirstManifest(x, y, h) && l.headers == [Create()] && l.payload == [x, y]
  {
    TwoBlocks(x, y, h);
    var tree := OneFile(BEFORE, [x, y]);
    assert NewFiles(tree, map[], 1, h) == FirstManifest(x, y, h).files;
    assert EntryFor(PATH, tree[PATH], map[], 1, h) == Create();
    assert [PATH][..0] == [];
    assert EntriesFor(tree, [], map[], 1, h) == [];
    assert EntriesFor(tree, [PATH], map[], 1, h) == [Create()];
    assert [Create()] + DeletionsFor(tree, []) == [Create()];
    assert [Create()][..0] == [];
    assert Payload(tree, [], 1) == [];
    assert Payload(tree, [Create()], 1) == [x, y];
  }

  function Create(): Header {
    Entry(PATH, BEFORE.mode, BEFORE.mtime, 2, false, None)
  }

  function Patch(): Header {
    Entry(PATH, CHANGED.mode, CHANGED.mtime, 2, true, Some(Deltas(1, [1])))
  }

  lemma SecondEntries(x: Byte, y: Byte, z: Byte, h: Hash)
    requires y != z
    ensures Complete(FirstManifest(x, y, h).files)
    ensures EntriesFor(OneFile(CHANGED, [x, z]), [PATH], FirstManifest(x, y, h).files, 1, h) == [Patch()]
  {
    TwoBlocks(x, y, h);
    SecondByteShips(x, y, z, h);
    var tree, earlier := OneFile(CHANGED, [x, z]), FirstManifest(x, y, h).files;
    assert EntryFor(PATH, tree[PATH], earlier, 1, h) == Patch();
    assert [PATH][..0] == [];
    assert EntriesFor(tree, [], earlier, 1, h) == [];
  }

  lemma PatchPayload(x: Byte, y: Byte, z: Byte, h: Hash)
    requires y != z
    ensures HeadersIn(OneFile(CHANGED, [x, z]), [Patch()])
    ensures Payload(OneFile(CHANGED, [x, z]), [Patch()], 1) == [z]
  {
    SecondByteShips(x, y, z, h);
    assert [Patch()][..0] == [];
    assert Payload(OneFile(CHANGED, [x, z]), [], 1) == [];
  }

  lemma SecondLevel(x: Byte, y: Byte, z: Byte, h: Hash)
    requires y != z
    ensures Complete(FirstManifest(x, y, h).files)
    ensures var l := LevelFor(OneFile(CHANGED, [x, z]), [PATH], Some(FirstManifest(x, y, h)), [PATH], 1, h);
            l.headers == [Patch()] && l.payload == [z]
  {
    var tree := OneFile(CHANGED, [x, z]);
    SecondEntries(x, y, z, h);
    assert [PATH][..0] == [];
    assert DeletionsFor(tree, []) == [] && DeletionsFor(tree, [PATH]) == [];
    assert [Patch()] + [] == [Patch()];
    PatchPayload(x, y, z, h);
  }

  function FirstRecord(x: Byte, y: Byte, stream: Data, h: Hash): Record {
    P.Backup(1, 1, 0, Archive(stream, FirstManifest(x, y, h), OneFile(BEFORE, [x, y]), 1))
  }

  function Events(x: Byte, y: Byte, z: Byte): seq<Event> {
    [First(x, y), Second(x, z)]
  }

  /** The two runs come in order. */
  lemma InOrder(x: Byte, y: Byte, z: Byte)
    ensures ClockIncreases([First(x, y)]) && ClockIncreases(Events(x, y, z))
    ensures LastTime(Events(x, y, z)) == 2 && LastTree(Events(x, y, z)) == OneFile(CHANGED, [x, z])
  {
    assert [First(x, y)][..0] == [];
    assert LastTime([]) == 0 && ClockIncreases([]);
    assert ClockIncreases([First(x, y)]) && LastTime([First(x, y)]) == 1;
    assert Events(x, y, z)[..1] == [First(x, y)];
  }

  /** The first backup begins a chain. */
  lemma FirstStep(x: Byte, y: Byte, env: Env) returns (stream: Data)
    ensures HonestEvent(map[], First(x, y), env) && TellsSizeTo(map[], First(x, y))
    ensures TellsBlocks(map[], First(x, y), env)
    ensures Step(map[], First(x, y), env) == map[1 := [FirstRecord(x, y, stream, env.hash)]]
    ensures stream == env.codec.encode([Create()]) + [x, y]
  {
    var e := First(x, y);
    assert P.Zeros<Archive>(map[], 0) == {};
    assert P.Previous<Archive>(map[], e.config, e.now) == P.Outcome.Value(None);
    FirstIsHonest(x, y, env);
    stream := FirstArchive(x, y, env);
  }

  lemma FirstIsHonest(x: Byte, y: Byte, env: Env)
    ensures Honest(None, First(x, y), env)
  {
  }

  lemma FirstArchive(x: Byte, y: Byte, env: Env) returns (stream: Data)
    requires Honest(None, First(x, y), env)
    ensures ArchiveFor(None, First(x, y), env)
            == Archive(stream, FirstManifest(x, y, env.hash), OneFile(BEFORE, [x, y]), 1)
    ensures stream == env.codec.encode([Create()]) + [x, y]
  {
    FirstLevel(x, y, env.hash);
    stream := ArchiveFor(None, First(x, y), env).stream;
  }

  /** After the first backup. */
  lemma OneBackup(x: Byte, y: Byte, env: Env) returns (stream: Data)
    ensures stream == env.codec.encode([Create()]) + [x, y]
    ensures ToldRun([First(x, y)], env)
    ensures Run([First(x, y)], env) == map[1 := [FirstRecord(x, y, stream, env.hash)]]
  {
    stream := FirstStep(x, y, env);
    RunSnoc([], First(x, y), env);
    assert [] + [First(x, y)] == [First(x, y)];
  }

  /** The second backup is built on the first. */
  lemma SecondChoice(b: Record, config: P.Config, now: int)
    requires b.zero == 1 && b.timestamp == 1 && b.level == 0 && config == P.Config(true, 0, 0, 0.0)
    ensures P.Previous(map[1 := [b]], config, now) == P.Outcome.Value(Some(b))
    ensures P.StoreValid(map[1 := [b]], 1)
  {
    var s: Store := map[1 := [b]];
    assert 1 in P.Zeros(s, 0) && P.Greatest(P.Zeros(s, 0)) == 1;
    assert [b][..0] == [];
    var inc := P.Increments([b]);
    assert inc == P.Increments<Archive>([])[0 := b] && 0 in inc;
    assert P.UpTo(inc, 0) == inc;
    assert P.HighestLevel(inc) == 0;
  }

  function SecondRecord(x: Byte, z: Byte, stream: Data, manifest: Manifest): Record {
    P.Backup(1, 2, 1, Archive(stream, manifest, OneFile(CHANGED, [x, z]), 1))
  }

  /** What the second backup adds to the first. */
  lemma SecondStep(x: Byte, y: Byte, z: Byte, first: Data, env: Env) returns (stream: Data, manifest: Manifest)
    requires y != z
    ensures var s: Store := map[1 := [FirstRecord(x, y, first, env.hash)]];
            && HonestEvent(s, Second(x, z), env) && TellsSizeTo(s, Second(x, z)) && TellsBlocks(s, Second(x, z), env)
            && Step(s, Second(x, z), env)
               == map[1 := [FirstRecord(x, y, first, env.hash), SecondRecord(x, z, stream, manifest)]]
    ensures stream == env.codec.encode([Patch()]) + [z]
  {
    var b, e := FirstRecord(x, y, first, env.hash), Second(x, z);
    SecondChoice(b, e.config, e.now);
    stream, manifest := SecondArchive(x, y, z, first, env);
    StepFrom(b, e, env, SecondRecord(x, z, stream, manifest));
    SecondTells(x, y, z, env.hash);
  }

  lemma SecondIsHonest(x: Byte, y: Byte, z: Byte, first: Data, env: Env)
    ensures Honest(Some(FirstRecord(x, y, first, env.hash)), Second(x, z), env)
  {
    var prev := Some(FirstRecord(x, y, first, env.hash));
    assert SeenBy(prev) == OneFile(BEFORE, [x, y]) && ManifestOf(prev) == Some(FirstManifest(x, y, env.hash));
    OneFileHonest(x, y, z, env.hash);
  }

  lemma OneFileHonest(x: Byte, y: Byte, z: Byte, h: Hash)
    ensures Faithful(OneFile(BEFORE, [x, y]), OneFile(CHANGED, [x, z]))
    ensures Complete(FirstManifest(x, y, h).files) && Lists([PATH], FirstManifest(x, y, h).files.Keys)
    ensures Lists([PATH], OneFile(CHANGED, [x, z]).Keys)
  {
  }

  lemma SecondTells(x: Byte, y: Byte, z: Byte, h: Hash)
    requires y != z
    ensures NoCollisions(OneFile(BEFORE, [x, y]), OneFile(CHANGED, [x, z]), 1, h)
  {
    SecondByteShips(x, y, z, h);
  }

  lemma SecondArchive(x: Byte, y: Byte, z: Byte, first: Data, env: Env) returns (stream: Data, manifest: Manifest)
    requires y != z
    ensures var b := FirstRecord(x, y, first, env.hash);
            && Honest(Some(b), Second(x, z), env)
            && ArchiveFor(Some(b), Second(x, z), env) == Archive(stream, manifest, OneFile(CHANGED, [x, z]), 1)
    ensures stream == env.codec.encode([Patch()]) + [z]
  {
    SecondIsHonest(x, y, z, first, env);
    SecondLevel(x, y, z, env.hash);
    OneFileHonest(x, y, z, env.hash);
    var l := LevelFor(OneFile(CHANGED, [x, z]), [PATH], Some(FirstManifest(x, y, env.hash)), [PATH], 1, env.hash);
    stream, manifest := StreamOf(l, env.codec), l.manifest;
  }

  lemma StepFrom(b: Record, e: Event, env: Env, made: Record)
    requires e.RunBackup? && Honest(Some(b), e, env) && b.zero == 1
    requires P.Previous(map[1 := [b]], e.config, e.now) == P.Outcome.Value(Some(b))
    requires made == P.Backup(1, e.timestamp, b.level + 1, ArchiveFor(Some(b), e, env))
    ensures HonestEvent(map[1 := [b]], e, env) && Step(map[1 := [b]], e, env) == map[1 := [b, made]]
  {
    assert [b] + [made] == [b, made];
  }

  lemma TwoBackups(x: Byte, y: Byte, z: Byte, env: Env) returns (c: Chain)
    requires y != z
    ensures ToldRun(Events(x, y, z), env) && Run(Events(x, y, z), env) == map[1 := c]
    ensures |c| == 2 && c[0].level == 0 && c[1].level == 1 && c[0].data.seen == OneFile(BEFORE, [x, y])
    ensures c[1].data.seen == OneFile(CHANGED, [x, z]) && c[1].data.stream == env.codec.encode([Patch()]) + [z]
    ensures BlockSizeOf(c) == 1 && c[0].data.stream == env.codec.encode([Create()]) + [x, y]
  {
    var first := OneBackup(x, y, env);
    var stream, manifest := SecondStep(x, y, z, first, env);
    RunSnoc([First(x, y)], Second(x, z), env);
    assert [First(x, y)] + [Second(x, z)] == Events(x, y, z);
    c := [FirstRecord(x, y, first, env.hash), SecondRecord(x, z, stream, manifest)];
  }

  /** The dictionary of a chain of two levels. */
  lemma DictionaryOfTwo(c: Chain)
    requires |c| == 2 && c[0].level == 0 && c[1].level == 1
    ensures P.Increments(c) == map[0 := c[0], 1 := c[1]]
  {
    assert c[..1] == [c[0]] && c[..1][..0] == [];
    assert P.Increments(c[..1]) == P.Increments<Archive>([])[0 := c[0]];
  }

  /** The levels of the two backups. */
  ghost predicate LevelsOf(inc: map<nat, Record>, x: Byte, y: Byte, z: Byte, env: Env) {
    && inc.Keys == {0, 1} && LevelsSound(inc, 2, 1, env)
    && inc[0].data.seen == OneFile(BEFORE, [x, y]) && inc[1].data.seen == OneFile(CHANGED, [x, z])
    && inc[0].data.stream == env.codec.encode([Create()]) + [x, y]
    && inc[1].data.stream == env.codec.encode([Patch()]) + [z]
  }

  /** What a restore of a store with one chain reads. */
  lemma OneChainRead(s: Store, last: int, c: Chain)
    requires P.StoreValid(s, last) && s == map[1 := c]
    ensures P.LatestIncrements(s, 0) == Some(P.Increments(c)) && P.Increments(c) != map[]
    ensures P.HighestLevel(P.Increments(c)) == c[|c| - 1].level
  {
    assert 1 in P.Zeros(s, 0) && P.Greatest(P.Zeros(s, 0)) == 1;
    P.NewestChain(s, last);
  }

  /** A run whose restore reads `inc` and should give `tree`. */
  ghost predicate LeadsTo(events: seq<Event>, env: Env, inc: map<nat, Record>, tree: Tree) {
    && ToldRun(events, env) && ClockIncreases(events) && LastTree(events) == tree
    && P.LatestIncrements(Run(events, env), 0) == Some(inc) && inc != map[] && P.HighestLevel(inc) == 1
  }

  lemma {:induction false} LevelsOfTwo(x: Byte, y: Byte, z: Byte, c: Chain, env: Env)
    requires P.ChainValid(1, c) && ChainSound(c, env) && BlockSizeOf(c) == 1
    requires |c| == 2 && c[0].level == 0 && c[1].level == 1
    requires c[0].data.seen == OneFile(BEFORE, [x, y]) && c[1].data.seen == OneFile(CHANGED, [x, z])
    requires c[0].data.stream == env.codec.encode([Create()]) + [x, y]
    requires c[1].data.stream == env.codec.encode([Patch()]) + [z]
    ensures LevelsOf(P.Increments(c), x, y, z, env)
  {
    SoundRebuilds(c, env);
    ChainLevelsSound(1, c, 1, env);
    DictionaryOfTwo(c);
  }

  lemma RunLeadsTo(x: Byte, y: Byte, z: Byte, env: Env) returns (inc: map<nat, Record>)
    requires y != z && env.codec.Sound()
    ensures LeadsTo(Events(x, y, z), env, inc, OneFile(CHANGED, [x, z])) && LevelsOf(inc, x, y, z, env)
  {
    var c := TwoBackups(x, y, z, env);
    InOrder(x, y, z);
    RunsAreSound(Events(x, y, z), env);
    OneChainRead(Run(Events(x, y, z), env), 2, c);
    LevelsOfTwo(x, y, z, c, env);
    inc := P.Increments(c);
  }

  // ---------- the restores ----------

  /** Under blocks of two the shipped byte lands past the end and is cut off again. */
  lemma PatchUnderTwo(x: Byte, y: Byte, z: Byte)
    ensures RestoreAll(View(OneFile(BEFORE, [x, y])), [Patch()], 1, 2, [z])
            == After(View(OneFile(CHANGED, [x, y])), [], Done)
  {
    assert Offset(1, 2) == 2 && Offset(0, 2) == 0;
    assert WriteAt([x, y], 2, [z]) == [x, y, z];
    assert [z][0..1] == [z] && [z][1..] == [];
    assert PatchedContent([x, y], 2, Deltas(1, [1]), 2, [z]) == [x, y];
    var fs := View(OneFile(BEFORE, [x, y]));
    assert RestoreOne(fs, Patch(), 1, 2, [z]) == After(View(OneFile(CHANGED, [x, y])), [], Done);
    assert [Patch()][..0] == [];
    assert RestoreAll(fs, [], 1, 2, [z]) == After(fs, [z], Done);
  }

  lemma DecodesTo(codec: Codec, headers: seq<Header>, data: Data)
    requires codec.Sound()
    ensures codec.decode(codec.encode(headers) + data) == Some((headers, |codec.encode(headers)|))
    ensures (codec.encode(headers) + data)[|codec.encode(headers)|..] == data
  {
    DecodeWithMore(codec, codec.encode(headers), data);
  }

  lemma SameSizeRestores(x: Byte, y: Byte, z: Byte, env: Env, inc: map<nat, Record>, pipes: Pipes)
    requires env.codec.Sound() && LevelsOf(inc, x, y, z, env) && Delivers(inc, 2, pipes)
    ensures RestoreLevels(inc, 2, 1, env.codec, pipes) == Report(View(OneFile(CHANGED, [x, z])), true, false)
  {
    LevelsRebuild(inc, 2, 1, env, pipes);
  }

  lemma FirstLevelUnderTwo(x: Byte, y: Byte, z: Byte, env: Env, inc: map<nat, Record>, pipes: Pipes)
    requires env.codec.Sound() && LevelsOf(inc, x, y, z, env) && Delivers(inc, 2, pipes)
    ensures RestoreLevels(inc, 1, 2, env.codec, pipes) == Report(View(OneFile(BEFORE, [x, y])), true, false)
  {
    DecodesTo(env.codec, [Create()], [x, y]);
    assert forall l: nat :: l < 1 ==> SoundAt(inc, l, 1, env);
    LevelsUnderOtherSize(inc, 1, 1, 2, env, pipes);
  }

  lemma OtherSizeRestores(x: Byte, y: Byte, z: Byte, env: Env, inc: map<nat, Record>, pipes: Pipes)
    requires env.codec.Sound() && LevelsOf(inc, x, y, z, env) && Delivers(inc, 2, pipes)
    ensures RestoreLevels(inc, 2, 2, env.codec, pipes) == Report(View(OneFile(CHANGED, [x, y])), true, false)
  {
    DecodesTo(env.codec, [Patch()], [z]);
    PatchUnderTwo(x, y, z);
    FirstLevelUnderTwo(x, y, z, env, inc, pipes);
  }

  lemma MissingDataRestores(x: Byte, y: Byte, z: Byte, env: Env, inc: map<nat, Record>, pipes: Pipes)
    requires env.codec.Sound() && LevelsOf(inc, x, y, z, env)
    requires Flatten(pipes(0)) == inc[0].data.stream && Flatten(pipes(1)) + [z] == inc[1].data.stream
    ensures var r := RestoreLevels(inc, 2, 1, env.codec, pipes); r.ok && r.files != View(OneFile(CHANGED, [x, z]))
  {
    DecodesTo(env.codec, [Patch()], [z]);
    assert |Flatten(pipes(1))| == |env.codec.encode([Patch()])|;
    TruncatedDataReportsSuccess(inc, 1, 1, env, pipes);
  }

  /**
   * Restored with blocks of two instead of one, every level arriving whole: the agent reports success and
   * the change of the second byte is lost, for any bytes, digest and framing.
   */
  lemma OtherBlockSizeLosesChange(x: Byte, y: Byte, z: Byte, env: Env, pipes: Pipes) returns (inc: map<nat, Record>)
    requires y != z && env.codec.Sound()
    ensures LeadsTo(Events(x, y, z), env, inc, OneFile(CHANGED, [x, z]))
    ensures Delivers(inc, 2, pipes) ==>
              && RestoreLevels(inc, 2, 1, env.codec, pipes) == Report(View(OneFile(CHANGED, [x, z])), true, false)
              && RestoreLevels(inc, 2, 2, env.codec, pipes) == Report(View(OneFile(CHANGED, [x, y])), true, false)
    ensures View(OneFile(CHANGED, [x, y])) != View(OneFile(CHANGED, [x, z]))
  {
    inc := RunLeadsTo(x, y, z, env);
    if Delivers(inc, 2, pipes) {
      SameSizeRestores(x, y, z, env, inc, pipes);
      OtherSizeRestores(x, y, z, env, inc, pipes);
    }
    assert View(OneFile(CHANGED, [x, y]))[PATH].content[1] == y;
    assert View(OneFile(CHANGED, [x, z]))[PATH].content[1] == z;
  }

  /** With the second level's data missing from its stream, the agent reports success as well. */
  lemma MissingDataGoesUnnoticed(x: Byte, y: Byte, z: Byte, env: Env, pipes: Pipes) returns (inc: map<nat, Record>)
    requires y != z && env.codec.Sound()
    ensures LeadsTo(Events(x, y, z), env, inc, OneFile(CHANGED, [x, z])) && 0 in inc && 1 in inc
    ensures Flatten(pipes(0)) == inc[0].data.stream && Flatten(pipes(1)) + [z] == inc[1].data.stream ==>
              var r := RestoreLevels(inc, 2, 1, env.codec, pipes);
              r.ok && r.files != View(OneFile(CHANGED, [x, z]))
  {
    inc := RunLeadsTo(x, y, z, env);
    if Flatten(pipes(0)) == inc[0].data.stream && Flatten(pipes(1)) + [z] == inc[1].data.stream {
      MissingDataRestores(x, y, z, env, inc, pipes);
    }
  }
}
