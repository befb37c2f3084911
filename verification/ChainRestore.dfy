/**
 * The agent from end to end: the planner of freezer/storage/base.py drives the block-delta engine of
 * freezer/engine/rsyncv2, and a restore replays the levels of one chain (freezer/engine/engine.py).
 */
module ChainRestore {
  import opened Bytes
  import opened Files
  import opened BlockSignatures
  import opened TreeDelta
  import opened TreeRestore
  import P = Planner
  import RestoreDate
  import opened BlockSizes

  /**
   * What one backup stores: its stream and the engine metadata. For the theorems alone, `seen` is its tree
   * and `size` the block size of its patches and signatures.
   */
  datatype Archive = Archive(stream: Data, manifest: Manifest, seen: Tree, size: nat)

  /** The engine's digest and the framing of its header lists. */
  datatype Env = Env(hash: Hash, codec: Codec)

  type Record = P.Backup<Archive>
  type Chain = P.Chain<Archive>
  type Store = P.Store<Archive>

  /** A backup run that fails on the way publishes nothing. */
  datatype Event =
    | RunBackup(config: P.Config, now: int, timestamp: int, tree: Tree,
                listing: seq<Path>, oldListing: seq<Path>, blockSize: nat)
    | RunFailed
    | RunRemoval(olderThan: int)

  function ManifestOf(prev: Option<Record>): Option<Manifest> {
    if prev.Some? then Some(prev.value.data.manifest) else None
  }

  function SeenBy(prev: Option<Record>): Tree {
    if prev.Some? then prev.value.data.seen else map[]
  }

  /** The environment of a backup built on `prev`: listings name every path once, equal stat means equal content. */
  ghost predicate Honest(prev: Option<Record>, e: Event, env: Env)
    requires e.RunBackup?
  {
    && e.blockSize > 0 && AdoptedBlockSize(ManifestOf(prev), e.blockSize) > 0
    && Lists(e.listing, e.tree.Keys)
    && Complete(OldFiles(ManifestOf(prev))) && Lists(e.oldListing, OldFiles(ManifestOf(prev)).Keys)
    && Faithful(SeenBy(prev), e.tree)
  }

  ghost predicate HonestEvent(s: Store, e: Event, env: Env) {
    e.RunBackup? ==>
      match P.Previous(s, e.config, e.now)
      case Raised => true
      case Value(prev) => Honest(prev, e, env)
  }

  ghost function ArchiveFor(prev: Option<Record>, e: Event, env: Env): Archive
    requires e.RunBackup? && Honest(prev, e, env)
  {
    var level := LevelFor(e.tree, e.listing, ManifestOf(prev), e.oldListing, e.blockSize, env.hash);
    Archive(StreamOf(level, env.codec), level.manifest, e.tree, AdoptedBlockSize(ManifestOf(prev), e.blockSize))
  }

  ghost function Step(s: Store, e: Event, env: Env): Store
    requires HonestEvent(s, e, env)
  {
    match e
    case RunRemoval(t) => P.Removed(s, t)
    case RunFailed => s
    case RunBackup(c, now, timestamp, _, _, _, _) =>
      match P.Previous(s, c, now)
      case Raised => s
      case Value(prev) => P.Add(s, prev, timestamp, ArchiveFor(prev, e, env))
  }

  ghost predicate HonestRun(events: seq<Event>, env: Env)
    decreases |events|, 0
  {
    events == [] ||
    (HonestRun(events[..|events| - 1], env) && HonestEvent(Run(events[..|events| - 1], env), events[|events| - 1], env))
  }

  ghost function Run(events: seq<Event>, env: Env): Store
    requires HonestRun(events, env)
    decreases |events|, 1
  {
    if events == [] then map[] else Step(Run(events[..|events| - 1], env), events[|events| - 1], env)
  }

  ghost function LastTime(events: seq<Event>): int {
    if events == [] then 0
    else
      var e := events[|events| - 1];
      if e.RunBackup? then e.timestamp else LastTime(events[..|events| - 1])
  }

  ghost predicate ClockIncreases(events: seq<Event>) {
    events == [] ||
    (ClockIncreases(events[..|events| - 1])
     && (events[|events| - 1].RunBackup? ==> events[|events| - 1].timestamp > LastTime(events[..|events| - 1])))
  }

  /** The metadata of the base tell the block size that its signatures have. */
  predicate TellsSize(prev: Option<Record>) {
    prev.Some? ==> prev.value.data.manifest.blockSize == prev.value.data.size
  }

  ghost predicate TellsSizeTo(s: Store, e: Event) {
    e.RunBackup? ==>
      match P.Previous(s, e.config, e.now)
      case Raised => true
      case Value(prev) => TellsSize(prev)
  }

  /** No backup is built on one whose metadata record another block size than the one it adopted. */
  ghost predicate SizesTold(events: seq<Event>, env: Env)
    requires HonestRun(events, env)
  {
    events == []
    || (SizesTold(events[..|events| - 1], env) && TellsSizeTo(Run(events[..|events| - 1], env), events[|events| - 1]))
  }

  /** No changed block of the backup's tree kept its digests under the size that the backup adopts. */
  ghost predicate TellsBlocks(s: Store, e: Event, env: Env)
    requires HonestEvent(s, e, env)
  {
    e.RunBackup? ==>
      match P.Previous(s, e.config, e.now)
      case Raised => true
      case Value(prev) =>
        NoCollisions(SeenBy(prev), e.tree, AdoptedBlockSize(ManifestOf(prev), e.blockSize), env.hash)
  }

  ghost predicate BlocksTold(events: seq<Event>, env: Env)
    requires HonestRun(events, env)
  {
    events == []
    || (BlocksTold(events[..|events| - 1], env)
        && TellsBlocks(Run(events[..|events| - 1], env), events[|events| - 1], env))
  }

  /** Neither sizes nor digests mislead any backup of the run. */
  ghost predicate ToldRun(events: seq<Event>, env: Env) {
    HonestRun(events, env) && SizesTold(events, env) && BlocksTold(events, env)
  }

  lemma RunSnoc(events: seq<Event>, e: Event, env: Env)
    requires HonestRun(events, env) && HonestEvent(Run(events, env), e, env)
    ensures HonestRun(events + [e], env) && Run(events + [e], env) == Step(Run(events, env), e, env)
    ensures SizesTold(events + [e], env) <==> SizesTold(events, env) && TellsSizeTo(Run(events, env), e)
    ensures BlocksTold(events + [e], env) <==> BlocksTold(events, env) && TellsBlocks(Run(events, env), e, env)
  {
    assert (events + [e])[..|events|] == events;
  }

  /** The run without its failed backups. */
  ghost function Succeeding(events: seq<Event>): seq<Event> {
    if events == [] then []
    else
      var n := |events| - 1;
      Succeeding(events[..n]) + if events[n].RunFailed? then [] else [events[n]]
  }

  /** A failed backup changes nothing, then or later: the rest of the run is what it would be without it. */
  lemma {:induction false} FailedBackupsDoNotCount(events: seq<Event>, env: Env)
    requires HonestRun(events, env)
    ensures HonestRun(Succeeding(events), env) && Run(Succeeding(events), env) == Run(events, env)
  {
    if events != [] {
      var n := |events| - 1;
      var early := Succeeding(events[..n]);
      FailedBackupsDoNotCount(events[..n], env);
      if events[n].RunFailed? {
        assert early + [] == early;
      } else {
        RunSnoc(early, events[n], env);
      }
    }
  }

  // ---------- the invariant: every level replays on top of the one below ----------

  /** The tree the level below left behind. */
  ghost function BaseTree(inc: map<nat, Record>, level: nat): Tree {
    if level > 0 && level - 1 in inc then inc[level - 1].data.seen else map[]
  }

  /** The record's data, read with this block size, rebuild its tree from its base. */
  ghost predicate Rebuilds(inc: map<nat, Record>, r: Record, bs: nat, env: Env)
    requires bs > 0
  {
    RestoreStream(View(BaseTree(inc, r.level)), r.level, bs, env.codec, r.data.stream)
    == After(View(r.data.seen), [], Done)
  }

  /** The record's metadata describes its tree, and its data rebuild that tree under the same size. */
  ghost predicate RecordSound(inc: map<nat, Record>, r: Record, bs: nat, env: Env)
    requires bs > 0
  {
    && r.data.size == bs
    && Describes(r.data.manifest.files, r.data.seen, bs, env.hash)
    && Rebuilds(inc, r, bs, env)
  }

  ghost predicate ChainRebuilds(c: Chain, bs: nat, env: Env)
    requires bs > 0
  {
    forall i :: 0 <= i < |c| ==> Rebuilds(P.Increments(c), c[i], bs, env)
  }

  /** The block size of a chain is the one its level zero was made with. */
  ghost function BlockSizeOf(c: Chain): nat
    requires c != []
  {
    c[0].data.size
  }

  ghost predicate ChainSound(c: Chain, env: Env) {
    && c != [] && BlockSizeOf(c) > 0
    && forall i :: 0 <= i < |c| ==> RecordSound(P.Increments(c), c[i], BlockSizeOf(c), env)
  }

  ghost predicate StoreSound(s: Store, env: Env) {
    forall z :: z in s ==> ChainSound(s[z], env)
  }

  /** An honest backup makes a sound record. */
  lemma ArchiveSound(prev: Option<Record>, e: Event, env: Env, level: nat)
    requires e.RunBackup? && Honest(prev, e, env)
    requires var bs := AdoptedBlockSize(ManifestOf(prev), e.blockSize);
             (prev.Some? ==> Describes(OldFiles(ManifestOf(prev)), SeenBy(prev), bs, env.hash))
             && NoCollisions(SeenBy(prev), e.tree, bs, env.hash)
    requires prev.Some? ==> level > 0
    requires env.codec.Sound()
    ensures var bs, a := AdoptedBlockSize(ManifestOf(prev), e.blockSize), ArchiveFor(prev, e, env);
            && a.size == bs && Describes(a.manifest.files, e.tree, bs, env.hash)
            && RestoreStream(View(SeenBy(prev)), level, bs, env.codec, a.stream) == After(View(e.tree), [], Done)
  {
    var before, m, h := SeenBy(prev), ManifestOf(prev), env.hash;
    var l := LevelFor(e.tree, e.listing, m, e.oldListing, e.blockSize, h);
    TreeRoundTrip(before, e.tree, e.listing, e.oldListing, m, e.blockSize, h, level, []);
    ManifestDescribes(before, e.tree, e.listing, e.oldListing, m, e.blockSize, h);
    assert l.payload + [] == l.payload;
    StreamRestores(View(before), level, AdoptedBlockSize(m, e.blockSize), env.codec, l, View(e.tree));
  }

  /** A record at or above the top of a chain leaves the base of every earlier record alone. */
  lemma AppendKeepsBases(z: int, c: Chain, made: Record, i: nat)
    requires P.ChainValid(z, c) && i < |c| && made.level >= c[|c| - 1].level
    ensures BaseTree(P.Increments(c + [made]), c[i].level) == BaseTree(P.Increments(c), c[i].level)
    ensures BaseTree(P.Increments(c + [made]), made.level) == BaseTree(P.Increments(c), made.level)
  {
    IncrementsOfAppend(c, made);
    if i < |c| - 1 {
      P.ChainOrdered(z, c, i, |c| - 1);
    }
    BaseUnaffected(P.Increments(c), made, c[i].level);
    BaseUnaffected(P.Increments(c), made, made.level);
  }

  lemma BaseUnaffected(inc: map<nat, Record>, made: Record, l: nat)
    requires l <= made.level
    ensures BaseTree(inc[made.level := made], l) == BaseTree(inc, l)
  {
  }

  lemma IncrementsOfAppend(c: Chain, made: Record)
    ensures P.Increments(c + [made]) == P.Increments(c)[made.level := made]
  {
    assert (c + [made])[..|c|] == c;
  }

  lemma AppendSound(z: int, c: Chain, made: Record, env: Env)
    requires P.ChainValid(z, c) && ChainSound(c, env) && made.level >= c[|c| - 1].level
    requires RecordSound(P.Increments(c), made, BlockSizeOf(c), env)
    ensures ChainSound(c + [made], env)
  {
    var c' := c + [made];
    forall i | 0 <= i < |c'|
      ensures RecordSound(P.Increments(c'), c'[i], BlockSizeOf(c), env)
    {
      AppendKeepsBases(z, c, made, if i < |c| then i else 0);
    }
  }

  /** A new chain of one level-zero record is sound. */
  lemma SingleSound(made: Record, bs: nat, env: Env)
    requires bs > 0 && made.level == 0 && RecordSound(map[], made, bs, env)
    ensures ChainSound([made], env)
  {
  }

  /** Whatever the options, each delta is read against the metadata it was computed from. */
  lemma BackupKeepsSound(s: Store, last: int, e: Event, env: Env)
    requires P.StoreValid(s, last) && StoreSound(s, env)
    requires e.RunBackup? && e.timestamp > last && HonestEvent(s, e, env) && env.codec.Sound()
    requires TellsSizeTo(s, e) && TellsBlocks(s, e, env)
    ensures StoreSound(Step(s, e, env), env)
  {
    P.PreviousOfValid(s, last, e.config, e.now);
    var prev := P.Previous(s, e.config, e.now).value;
    var archive := ArchiveFor(prev, e, env);
    if prev.None? {
      EmptyTreeDescribed(AdoptedBlockSize(None, e.blockSize), env.hash);
      ArchiveSound(prev, e, env, 0);
      SingleSound(P.Backup(e.timestamp, e.timestamp, 0, archive), e.blockSize, env);
    } else {
      var z, p := prev.value.zero, prev.value;
      PreviousIsSound(s, last, e, env);
      ArchiveSound(prev, e, env, p.level + 1);
      AppendSound(z, s[z], P.Backup(z, e.timestamp, p.level + 1, archive), env);
    }
  }

  lemma EmptyTreeDescribed(bs: nat, h: Hash)
    requires bs > 0
    ensures Describes(OldFiles(None), map[], bs, h)
  {
  }

  /** The chosen backup is sound, is the base of the next level, and fixes the block size. */
  lemma PreviousIsSound(s: Store, last: int, e: Event, env: Env)
    requires P.StoreValid(s, last) && StoreSound(s, env) && e.RunBackup? && TellsSizeTo(s, e)
    requires P.Previous(s, e.config, e.now).Value? && P.Previous(s, e.config, e.now).value.Some?
    ensures var prev := P.Previous(s, e.config, e.now).value;
            var p := prev.value;
            && p.zero in s
            && var bs := BlockSizeOf(s[p.zero]);
               bs > 0 && AdoptedBlockSize(ManifestOf(prev), e.blockSize) == bs
               && Describes(OldFiles(ManifestOf(prev)), SeenBy(prev), bs, env.hash)
               && BaseTree(P.Increments(s[p.zero]), p.level + 1) == SeenBy(prev)
               && p.level + 1 >= s[p.zero][|s[p.zero]| - 1].level
  {
    P.PreviousOfValid(s, last, e.config, e.now);
    var p := P.Previous(s, e.config, e.now).value.value;
    var c := s[p.zero];
    var i := P.IncrementIndex(p.zero, c, p.level);
    RecordOfSound(s, p.zero, i, env);
    BaseTreeIs(P.Increments(c), p.level, p);
  }

  lemma RecordOfSound(s: Store, z: int, i: nat, env: Env)
    requires StoreSound(s, env) && z in s && i < |s[z]|
    ensures BlockSizeOf(s[z]) > 0 && RecordSound(P.Increments(s[z]), s[z][i], BlockSizeOf(s[z]), env)
  {
  }

  lemma BaseTreeIs(inc: map<nat, Record>, level: nat, r: Record)
    requires level in inc && inc[level] == r
    ensures BaseTree(inc, level + 1) == r.data.seen
  {
  }

  lemma {:induction false} StoresAreValid(events: seq<Event>, env: Env)
    requires HonestRun(events, env) && ClockIncreases(events)
    ensures P.StoreValid(Run(events, env), LastTime(events))
  {
    if events != [] {
      var p, e := events[..|events| - 1], events[|events| - 1];
      StoresAreValid(p, env);
      var s := Run(p, env);
      if e.RunBackup? {
        P.PreviousOfValid(s, LastTime(p), e.config, e.now);
        var prev := P.Previous(s, e.config, e.now).value;
        P.AddKeepsValid(s, LastTime(p), e.config, e.now, e.timestamp, ArchiveFor(prev, e, env));
      } else if e.RunRemoval? {
        P.RemoveKeepsValid(s, LastTime(p), e.olderThan);
      }
    }
  }

  lemma StepIsAdd(s0: Store, last: int, e: Event, env: Env) returns (prev: Option<Record>)
    requires P.StoreValid(s0, last) && e.RunBackup? && HonestEvent(s0, e, env)
    ensures P.Previous(s0, e.config, e.now) == P.Outcome.Value(prev)
    ensures Step(s0, e, env) == P.Add(s0, prev, e.timestamp, ArchiveFor(prev, e, env))
    ensures ArchiveFor(prev, e, env).seen == e.tree
  {
    P.PreviousOfValid(s0, last, e.config, e.now);
    prev := P.Previous(s0, e.config, e.now).value;
  }

  /** The backup used and recorded this block size. */
  predicate HasSize(data: Archive, bs: nat) {
    data.size == bs && data.manifest.blockSize == bs
  }

  ghost predicate OneSize(s: Store, bs: nat) {
    forall z, i :: z in s && 0 <= i < |s[z]| ==> HasSize(s[z][i].data, bs)
  }

  lemma PreviousHasSize(s: Store, last: int, config: P.Config, now: int, bs: nat)
    requires P.StoreValid(s, last) && OneSize(s, bs)
    ensures P.Previous(s, config, now).Value?
    ensures var prev := P.Previous(s, config, now).value; prev.Some? ==> HasSize(prev.value.data, bs)
  {
    P.PreviousOfValid(s, last, config, now);
    var prev := P.Previous(s, config, now).value;
    if prev.Some? {
      var i := P.IncrementIndex(prev.value.zero, s[prev.value.zero], prev.value.level);
      assert HasSize(s[prev.value.zero][i].data, bs);
    }
  }

  lemma AddHasSize(s: Store, prev: Option<Record>, timestamp: int, data: Archive, bs: nat)
    requires OneSize(s, bs) && HasSize(data, bs)
    ensures OneSize(P.Add(s, prev, timestamp, data), bs)
  {
  }

  lemma OneSizeStep(s: Store, last: int, e: Event, env: Env, bs: nat)
    requires P.StoreValid(s, last) && OneSize(s, bs) && HonestEvent(s, e, env) && (e.RunBackup? ==> e.blockSize == bs)
    ensures TellsSizeTo(s, e) && OneSize(Step(s, e, env), bs)
  {
    if e.RunBackup? {
      PreviousHasSize(s, last, e.config, e.now, bs);
      var prev := StepIsAdd(s, last, e, env);
      AddHasSize(s, prev, e.timestamp, ArchiveFor(prev, e, env), bs);
    }
  }

  /** A run that never changes the configured block size leaves every base telling its size. */
  lemma {:induction false} OneSizeIsTold(events: seq<Event>, env: Env, bs: nat)
    requires HonestRun(events, env) && ClockIncreases(events)
    requires forall e :: e in events && e.RunBackup? ==> e.blockSize == bs
    ensures SizesTold(events, env) && OneSize(Run(events, env), bs)
  {
    if events != [] {
      var p := events[..|events| - 1];
      OneSizeIsTold(p, env, bs);
      StoresAreValid(p, env);
      OneSizeStep(Run(p, env), LastTime(p), events[|events| - 1], env, bs);
    }
  }

  /**
   * Every honest run of backups and removals leaves a valid store in which every record is sound, as long as
   * every base told its block size.
   */
  lemma {:induction false} RunsAreSound(events: seq<Event>, env: Env)
    requires ToldRun(events, env) && ClockIncreases(events) && env.codec.Sound()
    ensures P.StoreValid(Run(events, env), LastTime(events)) && StoreSound(Run(events, env), env)
  {
    StoresAreValid(events, env);
    if events != [] {
      var p, e := events[..|events| - 1], events[|events| - 1];
      RunsAreSound(p, env);
      if e.RunBackup? {
        BackupKeepsSound(Run(p, env), LastTime(p), e, env);
      }
    }
  }

  // ---------- restore ----------

  /**
   * The directory after a restore and whether it reports success. `starved` tells that a level was taken
   * for complete although its stream ended early, which the agent does not report.
   */
  datatype Report = Report(files: Target, ok: bool, starved: bool)

  /** What the pipe of each level delivers, in any pieces. */
  type Pipes = nat -> seq<Data>

  /** Apply one more level, unless an exception or a missing level came before. */
  ghost function AddLevel(before: Report, inc: map<nat, Record>, l: nat, bs: nat, codec: Codec, part: Data): Report
    requires bs > 0
  {
    if !before.ok then before
    else if l !in inc then before.(ok := false)
    else
      var r := RestoreStream(before.files, l, bs, codec, part);
      Report(r.files, !r.outcome.Raised?, before.starved || r.outcome.Starved?)
  }

  /** Apply levels 0 to n - 1 to an empty directory. */
  ghost function RestoreLevels(inc: map<nat, Record>, n: nat, bs: nat, codec: Codec, pipes: Pipes): Report
    requires bs > 0
  {
    if n == 0 then Report(map[], true, false)
    else AddLevel(RestoreLevels(inc, n - 1, bs, codec, pipes), inc, n - 1, bs, codec, Flatten(pipes(n - 1)))
  }

  /** How level `l` ends on top of what the levels below it left, if it is there. */
  ghost predicate EndsAs(inc: map<nat, Record>, l: nat, bs: nat, codec: Codec, pipes: Pipes, outcome: Outcome)
    requires bs > 0
  {
    l in inc
    && RestoreStream(RestoreLevels(inc, l, bs, codec, pipes).files, l, bs, codec, Flatten(pipes(l))).outcome == outcome
  }

  /** The level is there and does not raise. */
  ghost predicate GoesThrough(inc: map<nat, Record>, l: nat, bs: nat, codec: Codec, pipes: Pipes)
    requires bs > 0
  {
    l in inc && !EndsAs(inc, l, bs, codec, pipes, Raised)
  }

  /**
   * The restore reports success exactly when no level is missing or raises, and then a level was taken for
   * complete too early exactly when one starved.
   */
  lemma {:induction false} SucceedsIff(inc: map<nat, Record>, n: nat, bs: nat, codec: Codec, pipes: Pipes)
    requires bs > 0
    ensures var r := RestoreLevels(inc, n, bs, codec, pipes);
            && (r.ok <==> forall l: nat :: l < n ==> GoesThrough(inc, l, bs, codec, pipes))
            && (r.ok ==> (r.starved <==> exists l: nat :: l < n && EndsAs(inc, l, bs, codec, pipes, Starved)))
  {
    if n > 0 {
      SucceedsIff(inc, n - 1, bs, codec, pipes);
      OneMoreSucceeds(inc, n - 1, bs, codec, pipes);
    }
  }

  lemma OneMoreSucceeds(inc: map<nat, Record>, n: nat, bs: nat, codec: Codec, pipes: Pipes)
    requires bs > 0
    ensures var before, r := RestoreLevels(inc, n, bs, codec, pipes), RestoreLevels(inc, n + 1, bs, codec, pipes);
            && (r.ok <==> before.ok && GoesThrough(inc, n, bs, codec, pipes))
            && (r.ok ==> (r.starved <==> before.starved || EndsAs(inc, n, bs, codec, pipes, Starved)))
  {
  }

  /** A level that raises or is missing is the last one that is looked at, and the restore fails. */
  lemma FailingLevelEnds(inc: map<nat, Record>, l: nat, n: nat, bs: nat, codec: Codec, pipes: Pipes)
    requires bs > 0 && l < n && !GoesThrough(inc, l, bs, codec, pipes)
    requires RestoreLevels(inc, l, bs, codec, pipes).ok
    ensures var r := RestoreLevels(inc, n, bs, codec, pipes);
            !r.ok && r.files == if l !in inc then RestoreLevels(inc, l, bs, codec, pipes).files
                                else RestoreStream(RestoreLevels(inc, l, bs, codec, pipes).files, l, bs, codec,
                                                   Flatten(pipes(l))).files
  {
    OneMoreSucceeds(inc, l, bs, codec, pipes);
    FailureEnds(inc, l + 1, n, bs, codec, pipes);
  }

  /** Every level below `n` arrives whole. */
  ghost predicate Delivers(inc: map<nat, Record>, n: nat, pipes: Pipes) {
    forall l: nat :: l < n && l in inc ==> Flatten(pipes(l)) == inc[l].data.stream
  }

  /** Every level below `n` arrives up to some point. */
  ghost predicate DeliversPart(inc: map<nat, Record>, n: nat, pipes: Pipes) {
    forall l: nat :: l < n && l in inc ==> Flatten(pipes(l)) <= inc[l].data.stream
  }

  /** The record of a level is in the dictionary, and rebuilds its tree. */
  ghost predicate SoundAt(inc: map<nat, Record>, l: nat, bs: nat, env: Env)
    requires bs > 0
  {
    l in inc && inc[l].level == l && Rebuilds(inc, inc[l], bs, env)
  }

  ghost predicate LevelsSound(inc: map<nat, Record>, n: nat, bs: nat, env: Env)
    requires bs > 0
  {
    forall l: nat :: l < n ==> SoundAt(inc, l, bs, env)
  }

  lemma SoundRebuilds(c: Chain, env: Env)
    requires ChainSound(c, env)
    ensures ChainRebuilds(c, BlockSizeOf(c), env)
  {
    forall i | 0 <= i < |c| ensures Rebuilds(P.Increments(c), c[i], BlockSizeOf(c), env) {
      assert RecordSound(P.Increments(c), c[i], BlockSizeOf(c), env);
    }
  }

  /** The levels of a valid chain that rebuilds are sound, up to its top. */
  lemma ChainLevelsSound(z: int, c: Chain, bs: nat, env: Env)
    requires bs > 0 && P.ChainValid(z, c) && ChainRebuilds(c, bs, env)
    ensures LevelsSound(P.Increments(c), c[|c| - 1].level + 1, bs, env)
  {
    forall l: nat | l <= c[|c| - 1].level ensures SoundAt(P.Increments(c), l, bs, env) {
      var i := P.IncrementIndex(z, c, l);
      assert Rebuilds(P.Increments(c), c[i], bs, env);
    }
  }

  /** One level on top of the tree below, of which a part arrives. */
  lemma LevelOnPart(inc: map<nat, Record>, n: nat, bs: nat, env: Env, part: Data)
    requires bs > 0 && SoundAt(inc, n, bs, env) && env.codec.Sound() && part <= inc[n].data.stream
    ensures var stream := inc[n].data.stream;
            var r := RestoreStream(View(BaseTree(inc, n)), n, bs, env.codec, part);
            && env.codec.decode(stream).Some?
            && !r.outcome.Raised?
            && (r.outcome.Done? <==> part == stream)
            && (r.files == View(inc[n].data.seen) <==>
                  part == stream
                  || (|part| < env.codec.decode(stream).value.1
                      && View(BaseTree(inc, n)) == View(inc[n].data.seen)))
  {
    StreamOnPart(View(BaseTree(inc, n)), n, bs, env.codec, inc[n].data.stream, part);
    var r := RestoreStream(View(BaseTree(inc, n)), n, bs, env.codec, part);
    if HasPartial(r.files) {
      PartialIsNoTree(r.files, inc[n].data.seen);
    }
  }

  /** Replaying levels 0 to n - 1 rebuilds the tree that level n - 1 saw. */
  lemma {:induction false} LevelsRebuild(inc: map<nat, Record>, n: nat, bs: nat, env: Env, pipes: Pipes)
    requires bs > 0 && LevelsSound(inc, n, bs, env) && Delivers(inc, n, pipes)
    ensures RestoreLevels(inc, n, bs, env.codec, pipes) == Report(View(BaseTree(inc, n)), true, false)
  {
    if n > 0 {
      assert SoundAt(inc, n - 1, bs, env);
      LevelsRebuild(inc, n - 1, bs, env, pipes);
    }
  }

  predicate Whole(r: Report) {
    r.ok && !r.starved
  }

  /** `r` is what applying levels 0 to n - 1 comes to, each of which may have ended early. */
  ghost predicate LevelsOnParts(r: Report, inc: map<nat, Record>, n: nat, pipes: Pipes) {
    if Delivers(inc, n, pipes) then r == Report(View(BaseTree(inc, n)), true, false) else !Whole(r)
  }

  lemma WholeLevelIff(inc: map<nat, Record>, n: nat, bs: nat, env: Env, part: Data)
    requires bs > 0 && SoundAt(inc, n, bs, env) && env.codec.Sound() && part <= inc[n].data.stream
    ensures var r := AddLevel(Report(View(BaseTree(inc, n)), true, false), inc, n, bs, env.codec, part);
            if part == inc[n].data.stream then r == Report(View(BaseTree(inc, n + 1)), true, false) else !Whole(r)
  {
    LevelOnPart(inc, n, bs, env, part);
  }

  lemma NotWholeStays(before: Report, inc: map<nat, Record>, l: nat, bs: nat, codec: Codec, part: Data)
    requires bs > 0 && !Whole(before)
    ensures !Whole(AddLevel(before, inc, l, bs, codec, part))
  {
  }

  lemma AddedOnParts(before: Report, inc: map<nat, Record>, n: nat, bs: nat, env: Env, pipes: Pipes)
    requires bs > 0 && SoundAt(inc, n, bs, env) && env.codec.Sound() && DeliversPart(inc, n + 1, pipes)
    requires LevelsOnParts(before, inc, n, pipes)
    ensures LevelsOnParts(AddLevel(before, inc, n, bs, env.codec, Flatten(pipes(n))), inc, n + 1, pipes)
  {
    assert Delivers(inc, n + 1, pipes) <==>
           Delivers(inc, n, pipes) && Flatten(pipes(n)) == inc[n].data.stream;
    if Delivers(inc, n, pipes) {
      WholeLevelIff(inc, n, bs, env, Flatten(pipes(n)));
    } else {
      NotWholeStays(before, inc, n, bs, env.codec, Flatten(pipes(n)));
    }
  }

  lemma OneMoreLevel(inc: map<nat, Record>, n: nat, bs: nat, env: Env, pipes: Pipes)
    requires bs > 0 && SoundAt(inc, n, bs, env) && env.codec.Sound() && DeliversPart(inc, n + 1, pipes)
    requires LevelsOnParts(RestoreLevels(inc, n, bs, env.codec, pipes), inc, n, pipes)
    ensures LevelsOnParts(RestoreLevels(inc, n + 1, bs, env.codec, pipes), inc, n + 1, pipes)
  {
    AddedOnParts(RestoreLevels(inc, n, bs, env.codec, pipes), inc, n, bs, env, pipes);
  }

  lemma {:induction false} LevelsRestoreOnParts(inc: map<nat, Record>, n: nat, bs: nat, env: Env, pipes: Pipes)
    requires bs > 0 && LevelsSound(inc, n, bs, env) && env.codec.Sound() && DeliversPart(inc, n, pipes)
    ensures LevelsOnParts(RestoreLevels(inc, n, bs, env.codec, pipes), inc, n, pipes)
  {
    if n > 0 {
      LevelsRestoreOnParts(inc, n - 1, bs, env, pipes);
      assert SoundAt(inc, n - 1, bs, env);
      OneMoreLevel(inc, n - 1, bs, env, pipes);
    }
  }

  /**
   * Of streams that may each end early: the restore reports success without having taken a level for
   * complete that was not, exactly when every level arrived whole.
   */
  lemma NothingStarvesIff(inc: map<nat, Record>, n: nat, bs: nat, env: Env, pipes: Pipes)
    requires bs > 0 && LevelsSound(inc, n, bs, env) && env.codec.Sound() && DeliversPart(inc, n, pipes)
    ensures Whole(RestoreLevels(inc, n, bs, env.codec, pipes)) <==> Delivers(inc, n, pipes)
  {
    LevelsRestoreOnParts(inc, n, bs, env, pipes);
  }

  /**
   * When only the last level may end early, the restore always reports success, and it rebuilt the tree
   * exactly when that level arrived whole, or broke off in its header list and had nothing to change.
   */
  lemma LastLevelCut(inc: map<nat, Record>, n: nat, bs: nat, env: Env, pipes: Pipes)
    requires bs > 0 && LevelsSound(inc, n + 1, bs, env) && env.codec.Sound()
    requires Delivers(inc, n, pipes) && DeliversPart(inc, n + 1, pipes)
    ensures n in inc
    ensures var r := RestoreLevels(inc, n + 1, bs, env.codec, pipes);
            var stream, part := inc[n].data.stream, Flatten(pipes(n));
            && r.ok && env.codec.decode(stream).Some?
            && (r.files == View(inc[n].data.seen) <==>
                  part == stream
                  || (|part| < env.codec.decode(stream).value.1
                      && View(BaseTree(inc, n)) == View(inc[n].data.seen)))
  {
    assert SoundAt(inc, n, bs, env);
    assert forall l: nat :: l < n ==> SoundAt(inc, l, bs, env);
    LevelsRebuild(inc, n, bs, env, pipes);
    LevelOnPart(inc, n, bs, env, Flatten(pipes(n)));
  }

  /** So a last level that breaks off in its data is reported as a success, with another tree restored. */
  lemma TruncatedDataReportsSuccess(inc: map<nat, Record>, n: nat, bs: nat, env: Env, pipes: Pipes)
    requires bs > 0 && LevelsSound(inc, n + 1, bs, env) && env.codec.Sound()
    requires Delivers(inc, n, pipes) && DeliversPart(inc, n + 1, pipes)
    requires n in inc && env.codec.decode(inc[n].data.stream).Some?
    requires env.codec.decode(inc[n].data.stream).value.1 <= |Flatten(pipes(n))| < |inc[n].data.stream|
    ensures var r := RestoreLevels(inc, n + 1, bs, env.codec, pipes); r.ok && r.files != View(inc[n].data.seen)
  {
    LastLevelCut(inc, n, bs, env, pipes);
  }

  /** A dictionary cut off by a date replays like the whole one up to its top. */
  lemma {:induction false} RestoreOfPrefix(inc: map<nat, Record>, part: map<nat, Record>, n: nat, bs: nat,
                                           codec: Codec, pipes: Pipes)
    requires bs > 0
    requires forall l :: l in part ==> l in inc && part[l] == inc[l]
    requires forall l: nat :: l < n ==> l in part
    ensures RestoreLevels(part, n, bs, codec, pipes) == RestoreLevels(inc, n, bs, codec, pipes)
    ensures Delivers(part, n, pipes) ==> Delivers(inc, n, pipes)
  {
    if n > 0 {
      RestoreOfPrefix(inc, part, n - 1, bs, codec, pipes);
    }
  }

  // ---------- end to end ----------

  /** The tree that the last backup of a run saw. */
  ghost function LastTree(events: seq<Event>): Tree {
    if events == [] then map[]
    else
      var e := events[|events| - 1];
      if e.RunBackup? then e.tree else LastTree(events[..|events| - 1])
  }

  /** What a restore of the newest chain, with that chain's block size, comes to. */
  ghost predicate Restores(s: Store, date: int, z: int, env: Env, pipes: Pipes, tree: Tree) {
    && P.LatestIncrements(s, date).Some?
    && var inc := P.LatestIncrements(s, date).value;
       && inc != map[] && z in s && s[z] != [] && BlockSizeOf(s[z]) > 0
       && (Delivers(inc, P.HighestLevel(inc) + 1, pipes) ==>
             RestoreLevels(inc, P.HighestLevel(inc) + 1, BlockSizeOf(s[z]), env.codec, pipes)
             == Report(View(tree), true, false))
  }

  /**
   * End to end: after any honest run of backups, failed ones and removals that leaves anything, restoring
   * the newest chain into an empty directory gives exactly the tree that the last backup saw.
   */
  lemma RestoreGivesLastBackup(events: seq<Event>, s: Store, env: Env, pipes: Pipes)
    requires ToldRun(events, env) && ClockIncreases(events)
    requires s == Run(events, env) && env.codec.Sound()
    requires s != map[]
    ensures P.Zeros(s, 0) != {} && Restores(s, 0, P.Greatest(P.Zeros(s, 0)), env, pipes, LastTree(events))
  {
    RunsAreSound(events, env);
    P.ZerosOfNonEmpty(s);
    NewestIsLast(events, s, env);
    NewestRestores(s, LastTime(events), env, pipes, LastTree(events));
  }

  /**
   * After any honest run, of streams that may end early: the restore reports success with no level taken
   * for complete that was not, exactly when every level of the newest chain arrived whole.
   */
  lemma RestoreStarvesIff(events: seq<Event>, s: Store, env: Env, pipes: Pipes)
    requires ToldRun(events, env) && ClockIncreases(events)
    requires s == Run(events, env) && env.codec.Sound()
    requires s != map[]
    ensures P.LatestIncrements(s, 0).Some?
            && var inc := P.LatestIncrements(s, 0).value;
               inc != map[] && P.Zeros(s, 0) != {}
               && var n, z := P.HighestLevel(inc) + 1, P.Greatest(P.Zeros(s, 0));
                  s[z] != [] && BlockSizeOf(s[z]) > 0
                  && (DeliversPart(inc, n, pipes) ==>
                        (Whole(RestoreLevels(inc, n, BlockSizeOf(s[z]), env.codec, pipes))
                         <==> Delivers(inc, n, pipes)))
  {
    RunsAreSound(events, env);
    P.ZerosOfNonEmpty(s);
    NewestStarvesIff(s, LastTime(events), env, pipes);
  }

  lemma NewestStarvesIff(s: Store, last: int, env: Env, pipes: Pipes)
    requires P.StoreValid(s, last) && StoreSound(s, env) && P.Zeros(s, 0) != {} && env.codec.Sound()
    ensures P.LatestIncrements(s, 0).Some?
            && var inc := P.LatestIncrements(s, 0).value;
               inc != map[]
               && var n, z := P.HighestLevel(inc) + 1, P.Greatest(P.Zeros(s, 0));
                  s[z] != [] && BlockSizeOf(s[z]) > 0
                  && (DeliversPart(inc, n, pipes) ==>
                        (Whole(RestoreLevels(inc, n, BlockSizeOf(s[z]), env.codec, pipes))
                         <==> Delivers(inc, n, pipes)))
  {
    P.NewestChain(s, last);
    var z := P.Greatest(P.Zeros(s, 0));
    var inc, n := P.Increments(s[z]), s[z][|s[z]| - 1].level + 1;
    SoundRebuilds(s[z], env);
    ChainLevelsSound(z, s[z], BlockSizeOf(s[z]), env);
    if DeliversPart(inc, n, pipes) {
      NothingStarvesIff(inc, n, BlockSizeOf(s[z]), env, pipes);
    }
  }

  ghost predicate NewestSaw(s: Store, tree: Tree)
    requires P.Zeros(s, 0) != {}
  {
    var chain := s[P.Greatest(P.Zeros(s, 0))];
    chain != [] && chain[|chain| - 1].data.seen == tree
  }

  /** Whatever is removed, as long as anything is left the newest chain ends in the last backup. */
  lemma {:induction false} NewestIsLast(events: seq<Event>, s: Store, env: Env)
    requires HonestRun(events, env) && ClockIncreases(events) && s == Run(events, env)
    requires P.Zeros(s, 0) != {}
    ensures NewestSaw(s, LastTree(events))
  {
    if events != [] {
      var p, e := events[..|events| - 1], events[|events| - 1];
      var s0 := Run(p, env);
      StoresAreValid(p, env);
      if e.RunBackup? {
        NewestIsBackup(s0, LastTime(p), e, s, env);
      } else {
        OthersKeepNewest(s0, e, s, env);
        NewestIsLast(p, s0, env);
      }
    }
  }

  lemma OthersKeepNewest(s0: Store, e: Event, s: Store, env: Env)
    requires !e.RunBackup? && s == Step(s0, e, env) && P.Zeros(s, 0) != {}
    ensures P.Zeros(s0, 0) != {}
    ensures forall tree :: NewestSaw(s0, tree) ==> NewestSaw(s, tree)
  {
    if e.RunRemoval? {
      P.RemovalKeepsNewest(s0, e.olderThan);
    }
  }

  lemma NewestIsBackup(s0: Store, last: int, e: Event, s: Store, env: Env)
    requires P.StoreValid(s0, last) && e.RunBackup? && e.timestamp > last && HonestEvent(s0, e, env)
    requires s == Step(s0, e, env)
    ensures P.Zeros(s, 0) != {} && NewestSaw(s, e.tree)
  {
    var prev := StepIsAdd(s0, last, e, env);
    P.NewestIsAdded(s0, last, e.config, e.now, e.timestamp, ArchiveFor(prev, e, env));
  }

  /** Restoring without a date gives the tree of the last record of the newest chain. */
  lemma NewestRestores(s: Store, last: int, env: Env, pipes: Pipes, tree: Tree)
    requires P.StoreValid(s, last) && StoreSound(s, env) && P.Zeros(s, 0) != {} && NewestSaw(s, tree)
    ensures Restores(s, 0, P.Greatest(P.Zeros(s, 0)), env, pipes, tree)
  {
    P.NewestChain(s, last);
    var z := P.Greatest(P.Zeros(s, 0));
    SoundRebuilds(s[z], env);
    TopRestores(z, s[z], BlockSizeOf(s[z]), env, pipes);
  }

  lemma TopRestores(z: int, c: Chain, bs: nat, env: Env, pipes: Pipes)
    requires bs > 0 && P.ChainValid(z, c) && ChainRebuilds(c, bs, env)
    ensures var inc, n := P.Increments(c), c[|c| - 1].level + 1;
            Delivers(inc, n, pipes) ==>
              RestoreLevels(inc, n, bs, env.codec, pipes) == Report(View(c[|c| - 1].data.seen), true, false)
  {
    var n := |c| - 1;
    LastIsIncrement(z, c, n);
    if Delivers(P.Increments(c), c[n].level + 1, pipes) {
      ChainLevelsSound(z, c, bs, env);
      LevelsRebuild(P.Increments(c), c[n].level + 1, bs, env, pipes);
    }
  }

  /**
   * A restore with a date rebuilds the tree of the most recent backup not after it, for any honest
   * run in which no later backup of that chain made the same level again.
   */
  lemma DatedRestoreGivesMostRecent(events: seq<Event>, s: Store, env: Env, pipes: Pipes, date: int, z: int, i: nat)
    requires ToldRun(events, env) && ClockIncreases(events)
    requires s == Run(events, env) && env.codec.Sound()
    requires date != 0 && RestoreDate.MostRecent(s, date, z, i) && P.LastOfLevel(s[z], i)
    ensures Restores(s, date, z, env, pipes, s[z][i].data.seen)
  {
    RunsAreSound(events, env);
    DatedRestore(s, LastTime(events), env, pipes, date, z, i);
  }

  lemma DatedRestore(s: Store, last: int, env: Env, pipes: Pipes, date: int, z: int, i: nat)
    requires P.StoreValid(s, last) && StoreSound(s, env) && date != 0
    requires RestoreDate.MostRecent(s, date, z, i) && P.LastOfLevel(s[z], i)
    ensures Restores(s, date, z, env, pipes, s[z][i].data.seen)
  {
    DatedIsPrefix(s, last, date, z, i);
    SoundRebuilds(s[z], env);
    PrefixRestores(z, s[z], BlockSizeOf(s[z]), env, i, P.LatestIncrements(s, date).value, pipes);
  }

  /** A dictionary that holds the levels up to that of record `i` replays to the tree of record `i`. */
  lemma PrefixRestores(z: int, c: Chain, bs: nat, env: Env, i: nat, part: map<nat, Record>, pipes: Pipes)
    requires bs > 0 && P.ChainValid(z, c) && ChainRebuilds(c, bs, env) && i < |c| && P.LastOfLevel(c, i)
    requires forall l :: l in part ==> l in P.Increments(c) && part[l] == P.Increments(c)[l]
    requires forall l: nat :: l <= c[i].level ==> l in part
    ensures Delivers(part, c[i].level + 1, pipes) ==>
              RestoreLevels(part, c[i].level + 1, bs, env.codec, pipes)
              == Report(View(c[i].data.seen), true, false)
  {
    LastIsIncrement(z, c, i);
    RestoreOfPrefix(P.Increments(c), part, c[i].level + 1, bs, env.codec, pipes);
    if Delivers(part, c[i].level + 1, pipes) {
      ChainLevelsSound(z, c, bs, env);
      FewerLevels(P.Increments(c), c[|c| - 1].level + 1, c[i].level + 1, bs, env);
      LevelsRebuild(P.Increments(c), c[i].level + 1, bs, env, pipes);
      BaseTreeIs(P.Increments(c), c[i].level, c[i]);
    }
  }

  lemma FewerLevels(inc: map<nat, Record>, n: nat, k: nat, bs: nat, env: Env)
    requires bs > 0 && k <= n && LevelsSound(inc, n, bs, env)
    ensures LevelsSound(inc, k, bs, env)
  {
  }

  lemma DatedIsPrefix(s: Store, last: int, date: int, z: int, i: nat)
    requires P.StoreValid(s, last) && date != 0
    requires RestoreDate.MostRecent(s, date, z, i) && P.LastOfLevel(s[z], i)
    ensures P.LatestIncrements(s, date).Some?
    ensures var part, inc := P.LatestIncrements(s, date).value, P.Increments(s[z]);
            && (forall l :: l in part ==> l in inc && part[l] == inc[l])
            && (forall l: nat :: l <= s[z][i].level ==> l in part)
            && part != map[] && P.HighestLevel(part) == s[z][i].level
  {
    RestoreDate.PointInTimeRestore(s, last, date, z, i);
    RestoreDate.DateSelectsChain(s, last, date, z, i);
    P.HighestIsTop(P.LatestIncrements(s, date).value, s[z][i].level);
  }

  /** The last record of a level is the one in the dictionary. */
  lemma LastIsIncrement(z: int, c: Chain, i: nat)
    requires P.ChainValid(z, c) && i < |c| && P.LastOfLevel(c, i)
    ensures c[i].level <= c[|c| - 1].level
    ensures c[i].level in P.Increments(c) && P.Increments(c)[c[i].level] == c[i]
  {
  }

  // ---------- restoring with another block size ----------

  /** The patches of every level below `n` fit the other size. */
  ghost predicate LevelsFit(inc: map<nat, Record>, n: nat, bs: nat, bs': nat, codec: Codec)
    requires bs > 0 && bs' > 0
  {
    forall l: nat :: l < n && l in inc && codec.decode(inc[l].data.stream).Some? ==>
      AllFit(codec.decode(inc[l].data.stream).value.0, bs, bs')
  }

  /** Levels whose patches fit the configured size restore to the same tree under it. */
  lemma {:induction false} LevelsUnderOtherSize(inc: map<nat, Record>, n: nat, bs: nat, bs': nat, env: Env, pipes: Pipes)
    requires bs > 0 && bs' > 0 && LevelsSound(inc, n, bs, env) && Delivers(inc, n, pipes)
    requires LevelsFit(inc, n, bs, bs', env.codec)
    ensures RestoreLevels(inc, n, bs', env.codec, pipes) == Report(View(BaseTree(inc, n)), true, false)
  {
    if n > 0 {
      assert SoundAt(inc, n - 1, bs, env);
      LevelsUnderOtherSize(inc, n - 1, bs, bs', env, pipes);
      var stream := inc[n - 1].data.stream;
      var headers, k := env.codec.decode(stream).value.0, Min(env.codec.decode(stream).value.1, |stream|);
      HeadersUnder(View(BaseTree(inc, n - 1)), headers, n - 1, bs, bs', stream[k..]);
    }
  }

  /**
   * After any honest run: the newest chain restores to the last backup's tree under any block size that
   * all its patches fit.
   */
  lemma RestoreUnderOtherSize(events: seq<Event>, s: Store, env: Env, pipes: Pipes, bs': nat)
    requires ToldRun(events, env) && ClockIncreases(events)
    requires s == Run(events, env) && env.codec.Sound()
    requires s != map[] && bs' > 0
    ensures P.Zeros(s, 0) != {} && RestoresUnder(s, P.Greatest(P.Zeros(s, 0)), env, pipes, bs', LastTree(events))
  {
    RunsAreSound(events, env);
    P.ZerosOfNonEmpty(s);
    NewestIsLast(events, s, env);
    NewestRestoresUnder(s, LastTime(events), env, pipes, bs', LastTree(events));
  }

  ghost predicate RestoresUnder(s: Store, z: int, env: Env, pipes: Pipes, bs': nat, tree: Tree)
    requires bs' > 0
  {
    && P.LatestIncrements(s, 0).Some?
    && var inc := P.LatestIncrements(s, 0).value;
       && inc != map[] && z in s && s[z] != [] && BlockSizeOf(s[z]) > 0
       && var n := P.HighestLevel(inc) + 1;
          (Delivers(inc, n, pipes) && LevelsFit(inc, n, BlockSizeOf(s[z]), bs', env.codec) ==>
             RestoreLevels(inc, n, bs', env.codec, pipes) == Report(View(tree), true, false))
  }

  lemma NewestRestoresUnder(s: Store, last: int, env: Env, pipes: Pipes, bs': nat, tree: Tree)
    requires P.StoreValid(s, last) && StoreSound(s, env) && P.Zeros(s, 0) != {} && NewestSaw(s, tree) && bs' > 0
    ensures RestoresUnder(s, P.Greatest(P.Zeros(s, 0)), env, pipes, bs', tree)
  {
    P.NewestChain(s, last);
    var z := P.Greatest(P.Zeros(s, 0));
    TopRestoresUnder(z, s[z], env, pipes, bs');
  }

  lemma TopRestoresUnder(z: int, c: Chain, env: Env, pipes: Pipes, bs': nat)
    requires P.ChainValid(z, c) && ChainSound(c, env) && bs' > 0
    ensures var inc, n := P.Increments(c), c[|c| - 1].level + 1;
            Delivers(inc, n, pipes) && LevelsFit(inc, n, BlockSizeOf(c), bs', env.codec) ==>
              RestoreLevels(inc, n, bs', env.codec, pipes) == Report(View(c[|c| - 1].data.seen), true, false)
  {
    var inc, n := P.Increments(c), c[|c| - 1].level + 1;
    LastIsIncrement(z, c, |c| - 1);
    if Delivers(inc, n, pipes) && LevelsFit(inc, n, BlockSizeOf(c), bs', env.codec) {
      SoundRebuilds(c, env);
      ChainLevelsSound(z, c, BlockSizeOf(c), env);
      LevelsUnderOtherSize(inc, n, BlockSizeOf(c), bs', env, pipes);
    }
  }

  // ---------- the agent ----------

  class BackupAgent {
    const storage: P.Storage<Archive>
    const engine: Rsyncv2Engine

    constructor (storage: P.Storage<Archive>, engine: Rsyncv2Engine)
      ensures this.storage == storage && this.engine == engine
    {
      this.storage, this.engine := storage, engine;
    }

    function Environment(): Env {
      Env(engine.sha1, engine.msgpack)
    }

    /**
     * One backup: choose the base, run the engine against its metadata, publish the result. A fault of
     * either thread or of the metadata's upload publishes nothing.
     */
    method Backup(e: Event, fault: bool) returns (ok: bool)
      requires e.RunBackup? && e.blockSize == engine.rsyncBlockSize && engine.maxSegmentSize > 0
      requires HonestEvent(storage.chains, e, Environment())
      modifies storage, engine
      ensures storage.chains == Step(old(storage.chains), if fault then RunFailed else e, Environment())
      ensures ok <==> !fault && P.Previous(old(storage.chains), e.config, e.now).Value?
    {
      var r := storage.PreviousBackup(e.config, e.now);
      if r.Raised? {
        return false;
      }
      var prev := r.value;
      var queue, manifest := engine.GetSignDelta(e.tree, e.listing, ManifestOf(prev), e.oldListing);
      if fault {
        return false;
      }
      storage.PutBackup(prev, e.timestamp, Archive(Flatten(queue), manifest, e.tree, engine.rsyncBlockSize));
      ok := true;
    }

    /** Restore every level of the selected chain, each from its own pipe. */
    method Restore(directory: RestoreDirectory, recentToDate: int, bs: nat, pipes: Pipes) returns (ok: bool)
      requires bs > 0 && engine.msgpack.Sound() && directory.files == map[]
      modifies directory
      ensures var latest := P.LatestIncrements(storage.chains, recentToDate);
              if latest.None? || latest.value == map[] then !ok && directory.files == map[]
              else
                var r := RestoreLevels(latest.value, P.HighestLevel(latest.value) + 1, bs, engine.msgpack, pipes);
                ok == r.ok && directory.files == r.files
    {
      var latest := storage.GetLatestLevelZeroIncrements(recentToDate);
      if latest.None? || latest.value == map[] {
        return false;
      }
      var top := storage.MaxLevel(latest.value);
      ok := ReplayLevels(latest.value, top + 1, directory, bs, pipes);
    }

    /** The level loop: an exception ends it, an early end of a level's stream does not. */
    method ReplayLevels(inc: map<nat, Record>, n: nat, directory: RestoreDirectory, bs: nat, pipes: Pipes)
      returns (ok: bool)
      requires bs > 0 && engine.msgpack.Sound() && directory.files == map[]
      modifies directory
      ensures var r := RestoreLevels(inc, n, bs, engine.msgpack, pipes); ok == r.ok && directory.files == r.files
    {
      for level := 0 to n
        invariant RestoreLevels(inc, level, bs, engine.msgpack, pipes).ok
        invariant RestoreLevels(inc, level, bs, engine.msgpack, pipes).files == directory.files
      {
        ok := level in inc;
        if ok {
          var stream := new ChunkStream(pipes(level));
          var outcome := directory.RestoreLevel(level, bs, engine.msgpack, stream);
          ok := !outcome.Raised?;
        }
        if !ok {
          FailureEnds(inc, level + 1, n, bs, engine.msgpack, pipes);
          return;
        }
      }
      ok := true;
    }
  }

  lemma {:induction false} FailureEnds(inc: map<nat, Record>, k: nat, n: nat, bs: nat, codec: Codec, pipes: Pipes)
    requires bs > 0 && k <= n && !RestoreLevels(inc, k, bs, codec, pipes).ok
    ensures RestoreLevels(inc, n, bs, codec, pipes) == RestoreLevels(inc, k, bs, codec, pipes)
  {
    if k < n {
      FailureEnds(inc, k, n - 1, bs, codec, pipes);
    }
  }
}
