/** Applying one backup level to a directory, and why that gives the tree that was backed up. */
module TreeRestore {
  import opened Bytes
  import opened Files
  import opened BlockSignatures
  import opened BlockDelta
  import opened TreeDelta

  /**
   * A restored regular file; ctime cannot be set back. A file whose data ended early keeps what was
   * written, but neither mode nor times are set.
   */
  datatype Restored = Restored(mode: nat, mtime: int, content: Data) | Partial(content: Data)

  type Target = map<Path, Restored>

  /** `Starved`: the stream ended early, which the source takes for completion. `Raised`: an exception. */
  datatype Outcome = Done | Starved | Raised

  /** The directory, what is left of the stream, and how it ended. */
  datatype After = After(files: Target, rest: Data, outcome: Outcome)

  function Stamped(fs: Target, header: Header): Target
    requires header.Entry?
  {
    if header.path in fs then fs[header.path := Restored(header.mode, header.mtime, fs[header.path].content)] else fs
  }

  /** The effect of a header that patches the file in place. */
  ghost function PatchOne(fs: Target, header: Header, bs: nat, input: Data): After
    requires bs > 0 && header.Entry? && header.deltas.Some?
  {
    var p, d := header.path, header.deltas.value;
    if d.length == 0 then After(Stamped(fs, header), input, Done)
    else if d.blocks == [] || p !in fs then After(fs, [], Raised)
    else if |input| < Consumed(d, bs) then
      After(fs[p := Partial(PatchAsFar(fs[p].content, d.blocks, bs, input, |d.blocks| - 1))], [], Starved)
    else
      After(fs[p := Restored(header.mode, header.mtime, PatchedContent(fs[p].content, header.size, d, bs, input))],
            input[Consumed(d, bs)..], Done)
  }

  /** The effect of a header that creates the file. */
  function CreateOne(fs: Target, header: Header, input: Data): After
    requires header.Entry?
  {
    if |input| < header.size then After(fs[header.path := Partial(input)], [], Starved)
    else After(fs[header.path := Restored(header.mode, header.mtime, input[..header.size])], input[header.size..], Done)
  }

  predicate Patches(header: Header) {
    header.Entry? && header.newLevel && header.deltas.Some?
  }

  /** The effect of one header on a directory and a stream. */
  ghost function RestoreOne(fs: Target, header: Header, level: nat, bs: nat, input: Data): After
    requires bs > 0
  {
    var cleared := if level == 0 || header.Deleted? then fs - {header.path} else fs;
    if header.Deleted? then After(cleared, input, Done)
    else if Patches(header) then PatchOne(cleared, header, bs, input)
    else CreateOne(cleared, header, input)
  }

  /** An exception comes from patching only: of a file that is not there, or with no block to patch. */
  lemma RaisesIff(fs: Target, header: Header, level: nat, bs: nat, input: Data)
    requires bs > 0
    ensures RestoreOne(fs, header, level, bs, input).outcome.Raised? <==>
              Patches(header) && header.deltas.value.length != 0
              && (header.deltas.value.blocks == [] || header.path !in fs || level == 0)
  {
  }

  /** The headers in order, up to the first that does not end normally. */
  ghost function RestoreAll(fs: Target, headers: seq<Header>, level: nat, bs: nat, input: Data): After
    requires bs > 0
  {
    if headers == [] then After(fs, input, Done)
    else
      var n := |headers| - 1;
      var before := RestoreAll(fs, headers[..n], level, bs, input);
      if before.outcome.Done? then RestoreOne(before.files, headers[n], level, bs, before.rest) else before
  }

  /** A whole stream: the header list, as soon as it is complete, and then the data. */
  ghost function RestoreStream(fs: Target, level: nat, bs: nat, codec: Codec, input: Data): After
    requires bs > 0
  {
    match codec.decode(input)
    case None => After(fs, [], Starved)
    case Some((headers, n)) => RestoreAll(fs, headers, level, bs, input[Min(n, |input|)..])
  }

  class RestoreDirectory {
    var files: Target

    constructor ()
      ensures files == map[]
    {
      files := map[];
    }

    /** Restore one header entry into the directory. */
    method RestoreFile(header: Header, level: nat, bs: nat, stream: ChunkStream) returns (outcome: Outcome)
      requires bs > 0 && stream.Valid()
      modifies this, stream
      ensures stream.Valid()
      ensures var r := RestoreOne(old(files), header, level, bs, old(stream.rest));
              files == r.files && outcome == r.outcome && (outcome.Done? ==> stream.rest == r.rest)
    {
      var p := header.path;
      if p in files {
        if level == 0 {
          files := files - {p};
        } else if header.Deleted? {
          files := files - {p};
          return Done;
        }
      }
      if header.Deleted? {
        return Done;
      }
      outcome := RestoreRegFile(header, bs, stream);
    }

    /** Write the data of a regular file, then its mode and times. */
    method RestoreRegFile(header: Header, bs: nat, stream: ChunkStream) returns (outcome: Outcome)
      requires header.Entry? && bs > 0 && stream.Valid()
      modifies this, stream
      ensures stream.Valid()
      ensures var r := if Patches(header) then PatchOne(old(files), header, bs, old(stream.rest))
                       else CreateOne(old(files), header, old(stream.rest));
              files == r.files && outcome == r.outcome && (outcome.Done? ==> stream.rest == r.rest)
    {
      if header.newLevel && header.deltas.Some? {
        outcome := PatchFile(header, header.deltas.value, bs, stream);
        return;
      }
      var ok, content := CreateRegFile(header.size, stream);
      if !ok {
        files := files[header.path := Partial(content)];
        return Starved;
      }
      files := files[header.path := Restored(header.mode, header.mtime, content)];
      outcome := Done;
    }

    /** Open the file in place, patch it, and set its mode and times. */
    method PatchFile(header: Header, d: Deltas, bs: nat, stream: ChunkStream) returns (outcome: Outcome)
      requires header.Entry? && header.deltas == Some(d) && bs > 0 && stream.Valid()
      modifies this, stream
      ensures stream.Valid()
      ensures var r := PatchOne(old(files), header, bs, old(stream.rest));
              files == r.files && outcome == r.outcome && (outcome.Done? ==> stream.rest == r.rest)
    {
      var p := header.path;
      if d.length != 0 {
        if d.blocks == [] || p !in files {
          return Raised;
        }
        var f := new OpenFile(files[p].content);
        var ok := PatchRegFile(f, header.size, stream, d, bs);
        if !ok {
          files := files[p := Partial(f.content)];
          return Starved;
        }
        files := files[p := Partial(f.content)];
      }
      if p in files {
        files := files[p := Restored(header.mode, header.mtime, files[p].content)];
      }
      outcome := Done;
    }

    /** Read from the stream until the header list is complete; None when the stream ends before that. */
    method LoadFilesMeta(codec: Codec, stream: ChunkStream) returns (headers: Option<seq<Header>>)
      requires codec.Sound() && stream.Valid()
      modifies stream
      ensures stream.Valid()
      ensures headers.None? <==> codec.decode(old(stream.rest)).None?
      ensures headers.Some? ==>
                var r := codec.decode(old(stream.rest)).value;
                headers.value == r.0 && stream.rest == old(stream.rest)[r.1..]
    {
      ghost var input := stream.rest;
      while codec.decode(stream.buffer).None?
        invariant stream.Valid() && stream.rest == input
        decreases |stream.pending|
      {
        var more := stream.Refill();
        if !more {
          return None;
        }
      }
      DecodeWithMore(codec, stream.buffer, Flatten(stream.pending));
      var decoded := codec.decode(stream.buffer).value;
      var framed := stream.ReadBuffered(decoded.1);
      headers := Some(decoded.0);
    }

    /** Restore a whole level: its header list, then the data that follows it. */
    method RestoreLevel(level: nat, bs: nat, codec: Codec, stream: ChunkStream) returns (outcome: Outcome)
      requires bs > 0 && codec.Sound() && stream.Valid()
      modifies this, stream
      ensures stream.Valid()
      ensures var r := RestoreStream(old(files), level, bs, codec, old(stream.rest));
              files == r.files && outcome == r.outcome && (outcome.Done? ==> stream.rest == r.rest)
    {
      var loaded := LoadFilesMeta(codec, stream);
      if loaded.None? {
        return Starved;
      }
      var headers := loaded.value;
      ghost var start, input := files, stream.rest;
      for k := 0 to |headers|
        invariant stream.Valid()
        invariant RestoreAll(start, headers[..k], level, bs, input) == After(files, stream.rest, Done)
      {
        TakeSnoc(headers, k);
        outcome := RestoreFile(headers[k], level, bs, stream);
        if !outcome.Done? {
          EndPersists(start, headers, level, bs, input, k + 1);
          return;
        }
      }
      assert headers[..|headers|] == headers;
      outcome := Done;
    }
  }

  lemma DecodeWithMore(codec: Codec, x: Data, y: Data)
    requires codec.Sound() && codec.decode(x).Some?
    ensures codec.decode(x + y) == codec.decode(x) && codec.decode(x).value.1 <= |x|
  {
  }

  /** What did not end normally is the end of the level. */
  lemma {:induction false} EndPersists(fs: Target, headers: seq<Header>, level: nat, bs: nat, input: Data, k: nat)
    requires bs > 0 && k <= |headers| && !RestoreAll(fs, headers[..k], level, bs, input).outcome.Done?
    ensures RestoreAll(fs, headers, level, bs, input) == RestoreAll(fs, headers[..k], level, bs, input)
  {
    if k == |headers| {
      assert headers[..k] == headers;
    } else {
      var p := headers[..|headers| - 1];
      assert p[..k] == headers[..k];
      EndPersists(fs, p, level, bs, input, k);
    }
  }

  // ---------- the round trip of one level ----------

  function ViewFile(f: SourceFile): Restored {
    Restored(f.stat.mode, f.stat.mtime, f.content)
  }

  /** What a perfect restore of a tree looks like. */
  function View(tree: Tree): Target {
    map p | p in tree :: ViewFile(tree[p])
  }

  /** The metadata is that of the tree: every file with its current signature. */
  ghost predicate Describes(files: FilesMeta, tree: Tree, bs: nat, h: Hash)
    requires bs > 0
  {
    && files.Keys == tree.Keys
    && forall p :: p in tree ==> files[p] == FileMeta(tree[p].stat, Some(SignatureOf(tree[p].content, bs, h)))
  }

  /** Files that were modified in place changed no block without changing its digests. */
  ghost predicate NoCollisions(before: Tree, after: Tree, bs: nat, h: Hash)
    requires bs > 0
  {
    forall p :: p in before && p in after && before[p].stat.mode == after[p].stat.mode
                && IsModified(before[p].stat, after[p].stat)
                ==> NoCollision(before[p].content, after[p].content, bs, h)
  }

  /** The metadata is about the tree: every file with its stat and some signature. */
  ghost predicate Tracks(files: FilesMeta, tree: Tree) {
    && files.Keys == tree.Keys
    && forall p :: p in tree ==> files[p].stat == tree[p].stat && files[p].signature.Some?
  }

  /** Whatever their signatures are of, files that were modified in place are patched right under `bs'`. */
  ghost predicate AllPatch(before: Tree, after: Tree, files: FilesMeta, bs: nat, bs': nat, h: Hash)
    requires bs > 0 && bs' > 0
  {
    forall p :: p in before && p in after && p in files && before[p].stat.mode == after[p].stat.mode
                && IsModified(before[p].stat, after[p].stat) && files[p].signature.Some?
                ==> PatchesTo(before[p].content, after[p].content, files[p].signature.value, bs, bs', h)
  }

  /** Current signatures without collisions patch right under their own size. */
  lemma DescribedPatch(before: Tree, after: Tree, files: FilesMeta, bs: nat, h: Hash)
    requires bs > 0 && Describes(files, before, bs, h) && NoCollisions(before, after, bs, h)
    ensures Tracks(files, before) && AllPatch(before, after, files, bs, bs, h)
  {
    forall p | p in before && p in after && before[p].stat.mode == after[p].stat.mode
               && IsModified(before[p].stat, after[p].stat)
      ensures PatchesTo(before[p].content, after[p].content, files[p].signature.value, bs, bs, h)
    {
      OwnSizePatches(before[p].content, after[p].content, bs, h);
    }
  }

  /** Equal mode, mtime and ctime mean equal content. */
  ghost predicate Faithful(before: Tree, after: Tree) {
    forall p :: p in before && p in after && before[p].stat == after[p].stat
                ==> before[p].content == after[p].content
  }

  /** What the directory holds for a path of the new tree: skipped files keep the old bytes. */
  function Expected(before: Tree, after: Tree, p: Path): Restored
    requires p in after
  {
    if p in before && before[p].stat == after[p].stat then ViewFile(before[p]) else ViewFile(after[p])
  }

  lemma SkippedMeansSameStat(before: Tree, after: Tree, files: FilesMeta, p: Path)
    requires Tracks(files, before) && p in after
    ensures Skipped(p, after[p].stat, files) <==> p in before && before[p].stat == after[p].stat
  {
  }

  /** One entry restores its file exactly and takes exactly its own bytes from the stream. */
  lemma EntryRestores(before: Tree, after: Tree, files: FilesMeta, bs: nat, bs': nat, h: Hash, level: nat, p: Path,
                      fs: Target, rest: Data)
    requires bs > 0 && bs' > 0 && Tracks(files, before) && AllPatch(before, after, files, bs, bs', h)
    requires p in after && !Skipped(p, after[p].stat, files)
    requires p in before ==> level > 0 && p in fs && fs[p] == ViewFile(before[p])
    ensures var entry := EntryFor(p, after[p], files, bs, h);
            RestoreOne(fs, entry, level, bs', PayloadOf(after, entry, bs) + rest)
            == After(fs[p := ViewFile(after[p])], rest, Done)
  {
    var entry, f := EntryFor(p, after[p], files, bs, h), after[p];
    var payload := PayloadOf(after, entry, bs);
    if entry.deltas.Some? {
      var d := entry.deltas.value;
      assert payload == DeltaBytes(f.content, bs, d.blocks);
      SplitAppend(payload, rest);
      PatchIsLocal(before[p].content, |f.content|, d, bs', payload + rest, |payload|);
    } else {
      SplitAppend(f.content, rest);
      assert (fs - {p})[p := ViewFile(f)] == fs[p := ViewFile(f)];
    }
  }

  lemma SplitAppend(a: Data, b: Data)
    ensures (a + b)[..|a|] == a && (a + b)[|a|..] == b
  {
  }

  /** The directory after the first `k` listed files were handled. */
  ghost function Mid(before: Tree, after: Tree, listing: seq<Path>, k: nat): Target
    requires k <= |listing| && forall p :: p in listing ==> p in after
  {
    if k == 0 then View(before)
    else Mid(before, after, listing, k - 1)[listing[k - 1] := Expected(before, after, listing[k - 1])]
  }

  lemma {:induction false} MidAt(before: Tree, after: Tree, listing: seq<Path>, k: nat, p: Path)
    requires k <= |listing| && forall p :: p in listing ==> p in after
    ensures p in Mid(before, after, listing, k) <==> p in before || p in listing[..k]
    ensures p in listing[..k] ==> Mid(before, after, listing, k)[p] == Expected(before, after, p)
    ensures p in before && p !in listing[..k] ==> Mid(before, after, listing, k)[p] == ViewFile(before[p])
  {
    if k > 0 {
      MidAt(before, after, listing, k - 1, p);
      TakeSnoc(listing, k - 1);
    }
  }

  /** Adding a header adds its payload at the end. */
  lemma SnocHeader(tree: Tree, headers: seq<Header>, header: Header, bs: nat)
    requires HeadersIn(tree, headers) && (header.Entry? ==> header.path in tree)
    ensures HeadersIn(tree, headers + [header])
    ensures Payload(tree, headers + [header], bs) == Payload(tree, headers, bs) + PayloadOf(tree, header, bs)
    ensures (headers + [header])[..|headers|] == headers
  {
  }

  /** Restoring the headers consumes exactly their own bytes and ends in `end`. */
  ghost predicate RunsTo(tree: Tree, fs: Target, headers: seq<Header>, level: nat, bs: nat, bs': nat, rest: Data,
                         end: Target)
    requires bs' > 0
  {
    HeadersIn(tree, headers)
    && RestoreAll(fs, headers, level, bs', Payload(tree, headers, bs) + rest) == After(end, rest, Done)
  }

  /** A run over some headers followed by one more header is a run over all of them. */
  lemma RestoreSnoc(tree: Tree, fs: Target, headers: seq<Header>, header: Header, level: nat, bs: nat, bs': nat,
                    rest: Data, mid: Target, end: Target)
    requires bs' > 0 && (header.Entry? ==> header.path in tree)
    requires var own := PayloadOf(tree, header, bs);
             RunsTo(tree, fs, headers, level, bs, bs', own + rest, mid)
             && RestoreOne(mid, header, level, bs', own + rest) == After(end, rest, Done)
    ensures RunsTo(tree, fs, headers + [header], level, bs, bs', rest, end)
  {
    SnocHeader(tree, headers, header, bs);
    Associative(Payload(tree, headers, bs), PayloadOf(tree, header, bs), rest);
  }

  /** The entries of one more listed file. */
  lemma EntriesSnoc(tree: Tree, listing: seq<Path>, files: FilesMeta, bs: nat, h: Hash, k: nat)
    requires bs > 0 && Complete(files) && k < |listing|
    requires forall p :: p in listing ==> p in tree
    ensures var entries, p := EntriesFor(tree, listing[..k], files, bs, h), listing[k];
            EntriesFor(tree, listing[..k + 1], files, bs, h)
            == if Skipped(p, tree[p].stat, files) then entries else entries + [EntryFor(p, tree[p], files, bs, h)]
  {
    TakeSnoc(listing, k);
  }

  /** A skipped file already has what is expected of it; any other gets its new content. */
  lemma MidStep(before: Tree, after: Tree, files: FilesMeta, listing: seq<Path>, k: nat)
    requires Tracks(files, before)
    requires k < |listing| && Distinct(listing) && forall p :: p in listing ==> p in after
    ensures var p, mid := listing[k], Mid(before, after, listing, k);
            && (p in before ==> before != map[] && p in mid && mid[p] == ViewFile(before[p]))
            && Mid(before, after, listing, k + 1)
               == if Skipped(p, after[p].stat, files) then mid else mid[p := ViewFile(after[p])]
  {
    MidAt(before, after, listing, k, listing[k]);
    assert listing[k] !in listing[..k];
    SkippedMeansSameStat(before, after, files, listing[k]);
  }

  /** One more listed file, on top of a run over the earlier ones. */
  lemma EntriesRestoreStep(before: Tree, after: Tree, files: FilesMeta, bs: nat, bs': nat, h: Hash, level: nat, p: Path,
                           entries: seq<Header>, mid: Target, rest: Data)
    requires bs > 0 && bs' > 0 && Tracks(files, before) && AllPatch(before, after, files, bs, bs', h)
    requires p in after && !Skipped(p, after[p].stat, files)
    requires p in before ==> level > 0 && p in mid && mid[p] == ViewFile(before[p])
    requires RunsTo(after, View(before), entries, level, bs, bs',
                    PayloadOf(after, EntryFor(p, after[p], files, bs, h), bs) + rest, mid)
    ensures RunsTo(after, View(before), entries + [EntryFor(p, after[p], files, bs, h)], level, bs, bs', rest,
                   mid[p := ViewFile(after[p])])
  {
    EntryRestores(before, after, files, bs, bs', h, level, p, mid, rest);
    RestoreSnoc(after, View(before), entries, EntryFor(p, after[p], files, bs, h), level, bs, bs', rest,
                mid, mid[p := ViewFile(after[p])]);
  }

  /** Running over no headers. */
  lemma RestoreNothing(tree: Tree, fs: Target, level: nat, bs: nat, bs': nat, rest: Data)
    requires bs' > 0
    ensures RunsTo(tree, fs, [], level, bs, bs', rest, fs)
  {
    assert [] + rest == rest;
  }

  /** The bytes that one listed file takes from the stream. */
  ghost function OwnBytes(after: Tree, files: FilesMeta, bs: nat, h: Hash, p: Path): Data
    requires bs > 0 && Complete(files) && p in after
  {
    if Skipped(p, after[p].stat, files) then [] else PayloadOf(after, EntryFor(p, after[p], files, bs, h), bs)
  }

  lemma OneMoreEntry(before: Tree, after: Tree, files: FilesMeta, bs: nat, bs': nat, h: Hash, level: nat,
                     listing: seq<Path>, k: nat, rest: Data)
    requires bs > 0 && bs' > 0 && Tracks(files, before) && AllPatch(before, after, files, bs, bs', h)
    requires k < |listing| && Distinct(listing) && forall p :: p in listing ==> p in after
    requires before != map[] ==> level > 0
    requires RunsTo(after, View(before), EntriesFor(after, listing[..k], files, bs, h), level, bs, bs',
                    OwnBytes(after, files, bs, h, listing[k]) + rest, Mid(before, after, listing, k))
    ensures RunsTo(after, View(before), EntriesFor(after, listing[..k + 1], files, bs, h), level, bs, bs', rest,
                   Mid(before, after, listing, k + 1))
  {
    var p := listing[k];
    EntriesSnoc(after, listing, files, bs, h, k);
    MidStep(before, after, files, listing, k);
    if Skipped(p, after[p].stat, files) {
      assert [] + rest == rest;
    } else {
      EntriesRestoreStep(before, after, files, bs, bs', h, level, p, EntriesFor(after, listing[..k], files, bs, h),
                         Mid(before, after, listing, k), rest);
    }
  }

  /** Handling the listed files one after the other. */
  lemma {:induction false} EntriesRestore(before: Tree, after: Tree, files: FilesMeta, bs: nat, bs': nat, h: Hash,
                                          level: nat, listing: seq<Path>, k: nat, rest: Data)
    requires bs > 0 && bs' > 0 && Tracks(files, before) && AllPatch(before, after, files, bs, bs', h)
    requires k <= |listing| && Distinct(listing) && forall p :: p in listing ==> p in after
    requires before != map[] ==> level > 0
    ensures RunsTo(after, View(before), EntriesFor(after, listing[..k], files, bs, h), level, bs, bs', rest,
                   Mid(before, after, listing, k))
  {
    if k == 0 {
      RestoreNothing(after, View(before), level, bs, bs', rest);
    } else {
      var own := OwnBytes(after, files, bs, h, listing[k - 1]);
      EntriesRestore(before, after, files, bs, bs', h, level, listing, k - 1, own + rest);
      OneMoreEntry(before, after, files, bs, bs', h, level, listing, k - 1, rest);
    }
  }

  /** Removing the earlier paths that are gone, without touching the stream. */
  lemma {:induction false} DeletionsRestore(after: Tree, headers: seq<Header>, oldListing: seq<Path>, k: nat, fs: Target,
                                            mid: Target, level: nat, bs: nat, bs': nat, rest: Data)
    requires bs' > 0 && k <= |oldListing| && RunsTo(after, fs, headers, level, bs, bs', rest, mid)
    ensures RunsTo(after, fs, headers + DeletionsFor(after, oldListing[..k]), level, bs, bs', rest,
                   mid - Gone(after, oldListing[..k]))
  {
    if k == 0 {
      assert headers + [] == headers;
      assert mid - Gone(after, []) == mid;
    } else {
      DeletionsRestore(after, headers, oldListing, k - 1, fs, mid, level, bs, bs', rest);
      DeletionsSnoc(after, oldListing, headers, k - 1, mid);
      var p := oldListing[k - 1];
      if p !in after {
        var left := mid - Gone(after, oldListing[..k - 1]);
        assert [] + rest == rest;
        RestoreSnoc(after, fs, headers + DeletionsFor(after, oldListing[..k - 1]), Deleted(p), level, bs, bs', rest,
                    left, left - {p});
      }
    }
  }

  /** The deletion marks of one more earlier path. */
  lemma DeletionsSnoc(after: Tree, oldListing: seq<Path>, headers: seq<Header>, k: nat, mid: Target)
    requires k < |oldListing|
    ensures var p, all := oldListing[k], headers + DeletionsFor(after, oldListing[..k]);
            headers + DeletionsFor(after, oldListing[..k + 1]) == (if p in after then all else all + [Deleted(p)])
            && mid - Gone(after, oldListing[..k + 1])
               == (if p in after then mid - Gone(after, oldListing[..k]) else mid - Gone(after, oldListing[..k]) - {p})
  {
    TakeSnoc(oldListing, k);
    var p := oldListing[k];
    assert Gone(after, oldListing[..k + 1]) == if p in after then Gone(after, oldListing[..k])
                                               else Gone(after, oldListing[..k]) + {p};
  }

  ghost function Gone(after: Tree, listing: seq<Path>): set<Path> {
    set p | p in listing && p !in after
  }

  /** The directory after a whole level: exactly the new paths, each with its expected file. */
  lemma MidWithoutGone(before: Tree, after: Tree, listing: seq<Path>, oldListing: seq<Path>)
    requires Lists(listing, after.Keys) && Lists(oldListing, before.Keys)
    ensures Mid(before, after, listing, |listing|) - Gone(after, oldListing)
         == map p | p in after :: Expected(before, after, p)
  {
    var r := Mid(before, after, listing, |listing|) - Gone(after, oldListing);
    forall p: Path
      ensures p in r <==> p in after
      ensures p in after ==> r[p] == Expected(before, after, p)
    {
      MidWithoutGoneAt(before, after, listing, oldListing, p);
    }
  }

  lemma MidWithoutGoneAt(before: Tree, after: Tree, listing: seq<Path>, oldListing: seq<Path>, p: Path)
    requires Lists(listing, after.Keys) && Lists(oldListing, before.Keys)
    ensures var r := Mid(before, after, listing, |listing|) - Gone(after, oldListing);
            && (p in r <==> p in after)
            && (p in after ==> r[p] == Expected(before, after, p))
  {
    assert listing[..|listing|] == listing;
    MidAt(before, after, listing, |listing|, p);
    assert p in listing <==> p in after;
    assert p in oldListing <==> p in before;
  }

  /**
   * One level over a tracked tree, whatever sizes its signatures have and under whatever size it is restored:
   * where the patches are right, the restore consumes the level's own bytes exactly and leaves every path of
   * the new tree with its expected file.
   */
  lemma LevelRestores(before: Tree, after: Tree, listing: seq<Path>, oldListing: seq<Path>,
                      manifest: Option<Manifest>, configured: nat, h: Hash, level: nat, bs': nat, rest: Data)
    requires configured > 0 && bs' > 0 && Tracks(OldFiles(manifest), before)
    requires AllPatch(before, after, OldFiles(manifest), AdoptedBlockSize(manifest, configured), bs', h)
    requires Lists(listing, after.Keys) && Lists(oldListing, before.Keys)
    requires before != map[] ==> level > 0
    ensures var l := LevelFor(after, listing, manifest, oldListing, configured, h);
            RestoreAll(View(before), l.headers, level, bs', l.payload + rest)
            == After(map p | p in after :: Expected(before, after, p), rest, Done)
  {
    var files, bs := OldFiles(manifest), AdoptedBlockSize(manifest, configured);
    EntriesRestore(before, after, files, bs, bs', h, level, listing, |listing|, rest);
    assert listing[..|listing|] == listing && oldListing[..|oldListing|] == oldListing;
    DeletionsRestore(after, EntriesFor(after, listing, files, bs, h), oldListing, |oldListing|, View(before),
                     Mid(before, after, listing, |listing|), level, bs, bs', rest);
    MidWithoutGone(before, after, listing, oldListing);
  }

  /** The restored directory is the new tree exactly when no content change kept its stat. */
  lemma LevelRoundTripIff(before: Tree, after: Tree)
    ensures (map p | p in after :: Expected(before, after, p)) == View(after) <==> Faithful(before, after)
  {
    var r := map p | p in after :: Expected(before, after, p);
    if r == View(after) {
      forall p | p in before && p in after && before[p].stat == after[p].stat
        ensures before[p].content == after[p].content
      {
        assert r[p] == ViewFile(before[p]) && View(after)[p] == ViewFile(after[p]);
      }
    }
  }

  /**
   * The metadata a run writes describes the tree it saw under the block size it adopted, and records the
   * configured one.
   */
  lemma ManifestDescribes(before: Tree, after: Tree, listing: seq<Path>, oldListing: seq<Path>,
                          manifest: Option<Manifest>, configured: nat, h: Hash)
    requires configured > 0 && Describes(OldFiles(manifest), before, AdoptedBlockSize(manifest, configured), h)
    requires Faithful(before, after)
    requires Lists(listing, after.Keys) && Lists(oldListing, before.Keys)
    ensures var m := LevelFor(after, listing, manifest, oldListing, configured, h).manifest;
            m.blockSize == configured && Describes(m.files, after, AdoptedBlockSize(manifest, configured), h)
  {
  }

  /** Backup then restore of one level gives the new tree exactly when stat tells every content change. */
  lemma TreeRoundTrip(before: Tree, after: Tree, listing: seq<Path>, oldListing: seq<Path>,
                      manifest: Option<Manifest>, configured: nat, h: Hash, level: nat, rest: Data)
    requires configured > 0
    requires var bs := AdoptedBlockSize(manifest, configured);
             Describes(OldFiles(manifest), before, bs, h) && NoCollisions(before, after, bs, h)
    requires Lists(listing, after.Keys) && Lists(oldListing, before.Keys)
    requires before != map[] ==> level > 0
    ensures var l := LevelFor(after, listing, manifest, oldListing, configured, h);
            RestoreAll(View(before), l.headers, level, AdoptedBlockSize(manifest, configured), l.payload + rest)
            == After(View(after), rest, Done)
            <==> Faithful(before, after)
  {
    var bs := AdoptedBlockSize(manifest, configured);
    DescribedPatch(before, after, OldFiles(manifest), bs, h);
    LevelRestores(before, after, listing, oldListing, manifest, configured, h, level, bs, rest);
    LevelRoundTripIff(before, after);
  }

  // ---------- a stream that ends early ----------

  /** What a header that ends normally takes from the stream. */
  function Need(header: Header, bs: nat): nat
    requires bs > 0
  {
    if header.Deleted? then 0
    else if !Patches(header) then header.size
    else if header.deltas.value.length == 0 || header.deltas.value.blocks == [] then 0
    else Consumed(header.deltas.value, bs)
  }

  predicate HasPartial(fs: Target) {
    exists p :: p in fs && fs[p].Partial?
  }

  lemma TakeThenDrop(s: Data, n: nat, k: nat)
    requires n <= k <= |s|
    ensures s[..k][..n] == s[..n] && s[..k][n..] == s[n..k] == s[n..][..k - n]
  {
  }

  /** A header that would end normally does so exactly when the part of the stream holds what it needs. */
  lemma HeaderOnPart(fs: Target, header: Header, level: nat, bs: nat, input: Data, k: nat)
    requires bs > 0 && k <= |input| && RestoreOne(fs, header, level, bs, input).outcome.Done?
    ensures var full, part, n := RestoreOne(fs, header, level, bs, input), RestoreOne(fs, header, level, bs, input[..k]),
                                 Need(header, bs);
            && n <= |input| && full.rest == input[n..]
            && (if k < n then part.outcome.Starved? && HasPartial(part.files)
                else part == After(full.files, input[n..k], Done))
  {
    var n := Need(header, bs);
    if n <= k {
      TakeThenDrop(input, n, k);
    }
    if Patches(header) && header.deltas.value.length != 0 {
      var cleared := if level == 0 then fs - {header.path} else fs;
      if n <= k {
        PatchIsLocal(cleared[header.path].content, header.size, header.deltas.value, bs, input, k);
      } else {
        assert RestoreOne(fs, header, level, bs, input[..k]).files[header.path].Partial?;
      }
    } else if !header.Deleted? && !Patches(header) && k < n {
      assert RestoreOne(fs, header, level, bs, input[..k]).files[header.path].Partial?;
    }
  }

  /** What the first `k` bytes of an input lead to, where the whole of it ends normally as `full`. */
  ghost predicate OnPart(full: After, part: After, input: Data, k: nat)
    requires k <= |input|
  {
    && |full.rest| <= |input| && full.rest == input[|input| - |full.rest|..]
    && (if k < |input| - |full.rest| then part.outcome.Starved? && HasPartial(part.files)
        else part == After(full.files, input[|input| - |full.rest|..k], Done))
  }

  /** The same for the bytes that a first header left. */
  lemma OnPartOfRest(full: After, part: After, input: Data, used: nat, k: nat)
    requires used <= k <= |input| && OnPart(full, part, input[used..], k - used)
    ensures OnPart(full, part, input, k)
  {
    var n := |input| - used - |full.rest|;
    DropThen(input, used, n);
    assert k >= used + n ==> input[used..][n..k - used] == input[used + n..k];
  }

  /** A part that ended inside an earlier header stays there. */
  lemma OnPartStays(mid: After, full: After, part: After, input: Data, k: nat)
    requires k <= |input| && OnPart(mid, part, input, k) && k < |input| - |mid.rest|
    requires |full.rest| <= |mid.rest| && full.rest == mid.rest[|mid.rest| - |full.rest|..]
    ensures OnPart(full, part, input, k)
  {
    DropThen(input, |input| - |mid.rest|, |mid.rest| - |full.rest|);
  }

  ghost predicate StepOnPart(step: (Target, Data) -> After, fs: Target, input: Data) {
    forall k: nat :: k <= |input| ==> OnPart(step(fs, input), step(fs, input[..k]), input, k)
  }

  lemma HeaderIsOnPart(fs: Target, header: Header, level: nat, bs: nat, input: Data)
    returns (step: (Target, Data) -> After)
    requires bs > 0 && RestoreOne(fs, header, level, bs, input).outcome.Done?
    ensures StepOnPart(step, fs, input)
    ensures forall files, data :: step(files, data) == RestoreOne(files, header, level, bs, data)
  {
    step := (files, data) => RestoreOne(files, header, level, bs, data);
    forall k: nat | k <= |input| ensures OnPart(step(fs, input), step(fs, input[..k]), input, k) {
      HeaderOnPart(fs, header, level, bs, input, k);
    }
  }

  /** One more header, whatever its step does. */
  lemma OneMoreOnPart(step: (Target, Data) -> After, mid: After, midPart: After, input: Data, k: nat)
    requires k <= |input| && OnPart(mid, midPart, input, k) && mid.outcome.Done?
    requires StepOnPart(step, mid.files, mid.rest)
    ensures var part := if midPart.outcome.Done? then step(midPart.files, midPart.rest) else midPart;
            OnPart(step(mid.files, mid.rest), part, input, k)
  {
    var full, used := step(mid.files, mid.rest), |input| - |mid.rest|;
    if used <= k {
      var part := step(mid.files, mid.rest[..k - used]);
      assert OnPart(full, part, mid.rest, k - used);
      assert midPart.rest == mid.rest[..k - used];
      OnPartOfRest(full, part, input, used, k);
    } else {
      assert OnPart(full, step(mid.files, mid.rest[..0]), mid.rest, 0);
      OnPartStays(mid, full, midPart, input, k);
    }
  }

  /** The same for a list of headers: none starves exactly when the part holds all they consumed. */
  lemma {:induction false} HeadersOnPart(fs: Target, headers: seq<Header>, level: nat, bs: nat, input: Data, k: nat)
    requires bs > 0 && k <= |input| && RestoreAll(fs, headers, level, bs, input).outcome.Done?
    ensures OnPart(RestoreAll(fs, headers, level, bs, input), RestoreAll(fs, headers, level, bs, input[..k]), input, k)
  {
    if headers != [] {
      var n := |headers| - 1;
      HeadersOnPart(fs, headers[..n], level, bs, input, k);
      var mid := RestoreAll(fs, headers[..n], level, bs, input);
      var step := HeaderIsOnPart(mid.files, headers[n], level, bs, mid.rest);
      OneMoreOnPart(step, mid, RestoreAll(fs, headers[..n], level, bs, input[..k]), input, k);
    }
  }

  /**
   * A level that ends normally on its whole stream ends normally on a part of it exactly when nothing is
   * missing. Otherwise it is taken for complete, with nothing restored if the part ends in the header
   * list, and with a partial file if it ends in the data.
   */
  lemma StreamOnPart(fs: Target, level: nat, bs: nat, codec: Codec, stream: Data, part: Data)
    requires bs > 0 && codec.Sound() && part <= stream
    requires var full := RestoreStream(fs, level, bs, codec, stream); full.outcome.Done? && full.rest == []
    ensures var full, r := RestoreStream(fs, level, bs, codec, stream), RestoreStream(fs, level, bs, codec, part);
            var n := codec.decode(stream).value.1;
            && codec.decode(stream).Some? && n <= |stream|
            && (part == stream ==> r == full)
            && (part != stream ==> r.outcome.Starved?)
            && (|part| < n ==> r.files == fs)
            && (n <= |part| < |stream| ==> HasPartial(r.files))
  {
    var k := |part|;
    assert part == stream[..k];
    var headers, n := codec.decode(stream).value.0, codec.decode(stream).value.1;
    assert codec.decode(stream[..k]) == if k < n then None else codec.decode(stream);
    if n <= k {
      TakeThenDrop(stream, n, k);
      HeadersOnPart(fs, headers, level, bs, stream[n..], k - n);
    } else {
      assert part != stream;
    }
  }

  /** A partial file is in no restored tree. */
  lemma PartialIsNoTree(fs: Target, tree: Tree)
    requires HasPartial(fs)
    ensures fs != View(tree)
  {
    var p :| p in fs && fs[p].Partial?;
    assert p in View(tree) ==> !View(tree)[p].Partial?;
  }

  /** A level's stream is read from its header list to its last byte. */
  lemma StreamRestores(fs: Target, level: nat, bs: nat, codec: Codec, l: Level, end: Target)
    requires bs > 0 && codec.Sound() && RestoreAll(fs, l.headers, level, bs, l.payload) == After(end, [], Done)
    ensures RestoreStream(fs, level, bs, codec, StreamOf(l, codec)) == After(end, [], Done)
    ensures codec.decode(StreamOf(l, codec)) == Some((l.headers, |codec.encode(l.headers)|))
  {
    DecodeWithMore(codec, codec.encode(l.headers), l.payload);
    SplitAppend(codec.encode(l.headers), l.payload);
  }

  /**
   * Any part of a level's stream, over a described tree: no exception; the level ends normally exactly
   * when the whole stream arrived; and the directory is the new tree exactly then, or when the header
   * list is incomplete and the old tree looks the same.
   */
  lemma PartOfLevel(before: Tree, after: Tree, listing: seq<Path>, oldListing: seq<Path>,
                    manifest: Option<Manifest>, configured: nat, h: Hash, level: nat, codec: Codec, part: Data)
    requires configured > 0 && codec.Sound()
    requires var bs := AdoptedBlockSize(manifest, configured);
             Describes(OldFiles(manifest), before, bs, h) && NoCollisions(before, after, bs, h)
    requires Lists(listing, after.Keys) && Lists(oldListing, before.Keys) && Faithful(before, after)
    requires before != map[] ==> level > 0
    requires part <= StreamOf(LevelFor(after, listing, manifest, oldListing, configured, h), codec)
    ensures var l := LevelFor(after, listing, manifest, oldListing, configured, h);
            var r := RestoreStream(View(before), level, AdoptedBlockSize(manifest, configured), codec, part);
            var whole := part == StreamOf(l, codec);
            && r.outcome == (if whole then Done else Starved)
            && (r.files == View(after) <==>
                  whole || (|part| < |codec.encode(l.headers)| && View(before) == View(after)))
  {
    var l := LevelFor(after, listing, manifest, oldListing, configured, h);
    var bs := AdoptedBlockSize(manifest, configured);
    TreeRoundTrip(before, after, listing, oldListing, manifest, configured, h, level, []);
    assert l.payload + [] == l.payload;
    StreamRestores(View(before), level, bs, codec, l, View(after));
    StreamOnPart(View(before), level, bs, codec, StreamOf(l, codec), part);
    var r := RestoreStream(View(before), level, bs, codec, part);
    if HasPartial(r.files) {
      PartialIsNoTree(r.files, after);
    }
  }
}
