/**
 * One backup level of a tree of regular files and its restore (freezer/engine/rsyncv2/rsyncv2.py):
 * a header list followed by one byte stream.
 */
module TreeDelta {
  import opened Bytes
  import opened Files
  import opened BlockSignatures
  import opened BlockDelta

  type Path = string

  /** What `lstat` gives for a regular file. */
  datatype Stat = Stat(mode: nat, mtime: int, ctime: int)

  datatype SourceFile = SourceFile(stat: Stat, content: Data)

  type Tree = map<Path, SourceFile>

  datatype FileMeta = FileMeta(stat: Stat, signature: Option<Signature>)

  type FilesMeta = map<Path, FileMeta>

  /** The engine metadata kept beside a backup. */
  datatype Manifest = Manifest(files: FilesMeta, blockSize: nat)

  datatype Header =
    | Entry(path: Path, mode: nat, mtime: int, size: nat, newLevel: bool, deltas: Option<Deltas>)
    | Deleted(path: Path)

  /** How a header list is framed at the head of a stream; `decode` gives the list and its length. */
  datatype Codec = Codec(encode: seq<Header> -> Data, decode: Data -> Option<(seq<Header>, nat)>)
  {
    /** A list is decoded from its own bytes, from no fewer, and whatever follows them. */
    ghost predicate Sound() {
      && (forall headers :: decode(encode(headers)) == Some((headers, |encode(headers)|)))
      && (forall x, y :: decode(x).Some? ==> decode(x + y) == decode(x))
      && (forall x :: decode(x).Some? ==> decode(x).value.1 <= |x|)
      && (forall x, k: nat :: k <= |x| && decode(x).Some? ==>
            decode(x[..k]) == if k < decode(x).value.1 then None else decode(x))
    }
  }

  // ---------- backup ----------

  /** Metadata written by a finished backup holds a signature for every file. */
  ghost predicate Complete(files: FilesMeta) {
    forall p :: p in files ==> files[p].signature.Some?
  }

  /** The earlier metadata of a path, dropped when its mode changed. */
  function OldFileMeta(path: Path, stat: Stat, earlier: FilesMeta): Option<FileMeta> {
    if path in earlier && earlier[path].stat.mode == stat.mode then Some(earlier[path]) else None
  }

  predicate IsModified(before: Stat, now: Stat) {
    before.mtime != now.mtime || before.ctime != now.ctime
  }

  /** The file is taken over from the previous level without an entry. */
  predicate Skipped(path: Path, stat: Stat, earlier: FilesMeta) {
    var meta := OldFileMeta(path, stat, earlier);
    meta.Some? && !IsModified(meta.value.stat, stat)
  }

  ghost function EntryFor(path: Path, f: SourceFile, earlier: FilesMeta, bs: nat, h: Hash): Header
    requires bs > 0 && Complete(earlier)
  {
    var meta := OldFileMeta(path, f.stat, earlier);
    var deltas :=
      if meta.None? then None
      else
        var d := DeltasOf(f.content, meta.value.signature.value, bs, h);
        if d.length > 0 then Some(d) else None;
    Entry(path, f.stat.mode, f.stat.mtime, |f.content|, meta.Some?, deltas)
  }

  /** Decide what one file contributes to the header list and to the new metadata. */
  method PrepareFileInfo(path: Path, source: SourceFile, earlier: FilesMeta, bs: nat, h: Hash)
    returns (meta: FileMeta, header: Option<Header>)
    requires bs > 0 && Complete(earlier)
    ensures Skipped(path, source.stat, earlier) ==> meta == earlier[path] && header == None
    ensures !Skipped(path, source.stat, earlier) ==>
              meta == FileMeta(source.stat, None) && header == Some(EntryFor(path, source, earlier, bs, h))
  {
    meta := FileMeta(source.stat, None);
    var oldMeta := OldFileMeta(path, source.stat, earlier);
    var newLevel := false;
    if oldMeta.Some? {
      if IsModified(oldMeta.value.stat, source.stat) {
        newLevel := true;
      } else {
        return oldMeta.value, None;
      }
    }
    var deltas: Option<Deltas> := None;
    if oldMeta.Some? {
      var fd := new OpenFile(source.content);
      var d := GetDeltasInfo(fd, oldMeta.value.signature.value, bs, h);
      if d.length != 0 {
        deltas := Some(d);
      }
    }
    header := Some(Entry(path, source.stat.mode, source.stat.mtime, |source.content|, newLevel, deltas));
  }

  /** The entries for the files listed, in listing order. */
  ghost function EntriesFor(tree: Tree, listing: seq<Path>, earlier: FilesMeta, bs: nat, h: Hash): seq<Header>
    requires bs > 0 && Complete(earlier)
    requires forall p :: p in listing ==> p in tree
  {
    if listing == [] then []
    else
      var n := |listing| - 1;
      var p := listing[n];
      EntriesFor(tree, listing[..n], earlier, bs, h)
      + if Skipped(p, tree[p].stat, earlier) then [] else [EntryFor(p, tree[p], earlier, bs, h)]
  }

  /** Deletion marks for the earlier paths that are gone. */
  ghost function DeletionsFor(tree: Tree, oldListing: seq<Path>): seq<Header> {
    if oldListing == [] then []
    else
      var n := |oldListing| - 1;
      DeletionsFor(tree, oldListing[..n]) + if oldListing[n] in tree then [] else [Deleted(oldListing[n])]
  }

  /** What one header puts on the stream. */
  ghost function PayloadOf(tree: Tree, header: Header, bs: nat): Data
    requires header.Entry? ==> header.path in tree
  {
    match header
    case Deleted(_) => []
    case Entry(p, _, _, _, _, deltas) =>
      if deltas.Some? then DeltaBytes(tree[p].content, bs, deltas.value.blocks) else tree[p].content
  }

  ghost predicate HeadersIn(tree: Tree, headers: seq<Header>) {
    forall x :: x in headers && x.Entry? ==> x.path in tree
  }

  ghost function Payload(tree: Tree, headers: seq<Header>, bs: nat): Data
    requires HeadersIn(tree, headers)
  {
    if headers == [] then []
    else
      var n := |headers| - 1;
      assert headers[n] in headers;
      assert forall x :: x in headers[..n] ==> x in headers;
      Payload(tree, headers[..n], bs) + PayloadOf(tree, headers[n], bs)
  }

  ghost function MetaFor(path: Path, f: SourceFile, earlier: FilesMeta, bs: nat, h: Hash): FileMeta
    requires bs > 0
  {
    if Skipped(path, f.stat, earlier) then earlier[path] else FileMeta(f.stat, Some(SignatureOf(f.content, bs, h)))
  }

  ghost function NewFiles(tree: Tree, earlier: FilesMeta, bs: nat, h: Hash): FilesMeta
    requires bs > 0
  {
    map p | p in tree :: MetaFor(p, tree[p], earlier, bs, h)
  }

  /** The files and the block size an incremental run starts from. */
  function OldFiles(manifest: Option<Manifest>): FilesMeta {
    if manifest.Some? then manifest.value.files else map[]
  }

  function AdoptedBlockSize(manifest: Option<Manifest>, configured: nat): nat {
    if manifest.Some? && manifest.value.blockSize != 0 then manifest.value.blockSize else configured
  }

  /** Everything one backup run writes. */
  datatype Level = Level(headers: seq<Header>, payload: Data, manifest: Manifest)

  /** What is stored of a level: its header list, then its data. */
  function StreamOf(level: Level, codec: Codec): Data {
    codec.encode(level.headers) + level.payload
  }

  /** The metadata records the configured block size, also when the run adopted that of its base. */
  ghost function LevelFor(tree: Tree, listing: seq<Path>, manifest: Option<Manifest>, oldListing: seq<Path>,
                          configured: nat, h: Hash): Level
    requires configured > 0 && Complete(OldFiles(manifest))
    requires Lists(listing, tree.Keys) && Lists(oldListing, OldFiles(manifest).Keys)
  {
    var earlier, bs := OldFiles(manifest), AdoptedBlockSize(manifest, configured);
    EntriesInTree(tree, listing, earlier, oldListing, bs, h);
    var headers := EntriesFor(tree, listing, earlier, bs, h) + DeletionsFor(tree, oldListing);
    Level(headers, Payload(tree, headers, bs), Manifest(NewFiles(tree, earlier, bs, h), configured))
  }

  lemma {:induction false} EntriesOfListing(tree: Tree, listing: seq<Path>, earlier: FilesMeta, bs: nat, h: Hash)
    requires bs > 0 && Complete(earlier)
    requires forall p :: p in listing ==> p in tree
    ensures forall x :: x in EntriesFor(tree, listing, earlier, bs, h) ==>
              x.Entry? && x.path in listing && !Skipped(x.path, tree[x.path].stat, earlier)
              && x == EntryFor(x.path, tree[x.path], earlier, bs, h)
    ensures forall p :: p in listing && !Skipped(p, tree[p].stat, earlier) ==>
              EntryFor(p, tree[p], earlier, bs, h) in EntriesFor(tree, listing, earlier, bs, h)
  {
    if listing != [] {
      var n := |listing| - 1;
      EntriesOfListing(tree, listing[..n], earlier, bs, h);
      assert listing == listing[..n] + [listing[n]];
    }
  }

  lemma {:induction false} DeletionsAreDeleted(tree: Tree, oldListing: seq<Path>)
    ensures forall x :: x in DeletionsFor(tree, oldListing) ==> x.Deleted?
  {
    if oldListing != [] {
      DeletionsAreDeleted(tree, oldListing[..|oldListing| - 1]);
    }
  }

  lemma EntriesInTree(tree: Tree, listing: seq<Path>, earlier: FilesMeta, oldListing: seq<Path>, bs: nat, h: Hash)
    requires bs > 0 && Complete(earlier)
    requires forall p :: p in listing ==> p in tree
    ensures HeadersIn(tree, EntriesFor(tree, listing, earlier, bs, h))
    ensures HeadersIn(tree, EntriesFor(tree, listing, earlier, bs, h) + DeletionsFor(tree, oldListing))
  {
  }

  /** The metadata of a file before its signature is computed. */
  function UnsignedMeta(path: Path, stat: Stat, earlier: FilesMeta): FileMeta {
    if Skipped(path, stat, earlier) then earlier[path] else FileMeta(stat, None)
  }

  /** Every file with an entry got its signature and every other file kept its metadata. */
  ghost predicate Signed(tree: Tree, headers: seq<Header>, unsigned: FilesMeta, files: FilesMeta, bs: nat, h: Hash)
    requires bs > 0 && HeadersIn(tree, headers)
  {
    && files.Keys == tree.Keys == unsigned.Keys
    && (forall x :: x in headers && x.Entry? ==>
          files[x.path] == FileMeta(unsigned[x.path].stat, Some(SignatureOf(tree[x.path].content, bs, h))))
    && (forall p :: p in tree && (forall x :: x in headers && x.Entry? ==> x.path != p) ==> files[p] == unsigned[p])
  }

  /** One more header: its file, if it has one, gets its signature. */
  lemma SignedNext(tree: Tree, headers: seq<Header>, k: nat, unsigned: FilesMeta, files: FilesMeta, bs: nat, h: Hash)
    requires bs > 0 && k < |headers| && HeadersIn(tree, headers) && HeadersIn(tree, headers[..k])
    requires Signed(tree, headers[..k], unsigned, files, bs, h)
    ensures HeadersIn(tree, headers[..k + 1])
    ensures var x := headers[k];
            Signed(tree, headers[..k + 1], unsigned,
                   if !x.Entry? then files
                   else files[x.path := files[x.path].(signature := Some(SignatureOf(tree[x.path].content, bs, h)))],
                   bs, h)
  {
    TakeSnoc(headers, k);
    assert headers[k] in headers && headers[k] in headers[..k + 1];
  }

  /** The listed files have their metadata, without new signatures. */
  ghost predicate Collected(tree: Tree, listed: seq<Path>, earlier: FilesMeta, files: FilesMeta) {
    && (forall p :: p in files <==> p in listed)
    && forall p :: p in files ==> p in tree && files[p] == UnsignedMeta(p, tree[p].stat, earlier)
  }

  lemma CollectedNext(tree: Tree, listing: seq<Path>, k: nat, earlier: FilesMeta, files: FilesMeta)
    requires k < |listing| && listing[k] in tree && Collected(tree, listing[..k], earlier, files)
    ensures var p := listing[k];
            Collected(tree, listing[..k + 1], earlier, files[p := UnsignedMeta(p, tree[p].stat, earlier)])
  {
    TakeSnoc(listing, k);
  }

  lemma AllCollected(tree: Tree, listing: seq<Path>, earlier: FilesMeta, files: FilesMeta)
    requires Lists(listing, tree.Keys) && Collected(tree, listing, earlier, files)
    ensures files == map p | p in tree :: UnsignedMeta(p, tree[p].stat, earlier)
  {
  }

  class Rsyncv2Engine {
    var rsyncBlockSize: nat
    const maxSegmentSize: nat
    const sha1: Hash
    const msgpack: Codec

    constructor (blockSize: nat, segmentSize: nat, sha1: Hash, msgpack: Codec)
      requires blockSize > 0 && segmentSize > 0
      ensures rsyncBlockSize == blockSize && maxSegmentSize == segmentSize
      ensures this.sha1 == sha1 && this.msgpack == msgpack
    {
      rsyncBlockSize, maxSegmentSize, this.sha1, this.msgpack := blockSize, segmentSize, sha1, msgpack;
    }

    /** First pass: metadata and entries of every listed file. */
    method CollectEntries(tree: Tree, listing: seq<Path>, earlier: FilesMeta)
      returns (files: FilesMeta, headers: seq<Header>)
      requires rsyncBlockSize > 0 && Complete(earlier) && Lists(listing, tree.Keys)
      ensures headers == EntriesFor(tree, listing, earlier, rsyncBlockSize, sha1)
      ensures files == map p | p in tree :: UnsignedMeta(p, tree[p].stat, earlier)
    {
      files, headers := map[], [];
      for k := 0 to |listing|
        invariant headers == EntriesFor(tree, listing[..k], earlier, rsyncBlockSize, sha1)
        invariant Collected(tree, listing[..k], earlier, files)
      {
        var p := listing[k];
        CollectedNext(tree, listing, k, earlier, files);
        var meta, header := PrepareFileInfo(p, tree[p], earlier, rsyncBlockSize, sha1);
        files := files[p := meta];
        if header.Some? {
          headers := headers + [header.value];
        }
        TakeSnoc(listing, k);
      }
      assert listing[..|listing|] == listing;
      AllCollected(tree, listing, earlier, files);
    }

    /** Second pass: a mark for every earlier path that is no longer there. */
    method CollectDeletions(tree: Tree, files: FilesMeta, oldListing: seq<Path>) returns (headers: seq<Header>)
      requires files.Keys == tree.Keys
      ensures headers == DeletionsFor(tree, oldListing)
    {
      headers := [];
      for k := 0 to |oldListing|
        invariant headers == DeletionsFor(tree, oldListing[..k])
      {
        if oldListing[k] !in files {
          headers := headers + [Deleted(oldListing[k])];
        }
        assert oldListing[..k + 1][..k] == oldListing[..k];
      }
      assert oldListing[..|oldListing|] == oldListing;
    }

    method BackupRegFile(header: Header, source: SourceFile) returns (queue: seq<Data>)
      requires header.Entry? && maxSegmentSize > 0
      ensures Flatten(queue) == PayloadOf(map[header.path := source], header, rsyncBlockSize)
    {
      var fd := new OpenFile(source.content);
      if header.deltas.Some? {
        queue := BackupDeltas(fd, header.deltas.value.blocks, rsyncBlockSize);
      } else {
        queue := BackupFile(fd, maxSegmentSize);
      }
    }

    /** Third pass: ship the data of every entry and sign the file. */
    method ShipAndSign(tree: Tree, headers: seq<Header>, unsigned: FilesMeta)
      returns (queue: seq<Data>, files: FilesMeta)
      requires rsyncBlockSize > 0 && maxSegmentSize > 0 && HeadersIn(tree, headers) && unsigned.Keys == tree.Keys
      ensures Flatten(queue) == Payload(tree, headers, rsyncBlockSize)
      ensures Signed(tree, headers, unsigned, files, rsyncBlockSize, sha1)
    {
      queue, files := [], unsigned;
      for k := 0 to |headers|
        invariant unchanged(`rsyncBlockSize)
        invariant HeadersIn(tree, headers[..k])
        invariant Flatten(queue) == Payload(tree, headers[..k], rsyncBlockSize)
        invariant Signed(tree, headers[..k], unsigned, files, rsyncBlockSize, sha1)
      {
        var header := headers[k];
        TakeSnoc(headers, k);
        SignedNext(tree, headers, k, unsigned, files, rsyncBlockSize, sha1);
        if header.Entry? {
          var blocks := BackupRegFile(header, tree[header.path]);
          FlattenAppend(queue, blocks);
          queue := queue + blocks;
          var fd := new OpenFile(tree[header.path].content);
          var signature := BlockChecksums(fd, rsyncBlockSize, sha1);
          files := files[header.path := files[header.path].(signature := Some(signature))];
        }
      }
      assert headers[..|headers|] == headers;
    }

    /** One whole backup run over a tree: everything it puts on the stream, and the new metadata. */
    method GetSignDelta(tree: Tree, listing: seq<Path>, manifest: Option<Manifest>, oldListing: seq<Path>)
      returns (queue: seq<Data>, newManifest: Manifest)
      requires rsyncBlockSize > 0 && maxSegmentSize > 0 && Complete(OldFiles(manifest))
      requires Lists(listing, tree.Keys) && Lists(oldListing, OldFiles(manifest).Keys)
      modifies this`rsyncBlockSize
      ensures rsyncBlockSize == AdoptedBlockSize(manifest, old(rsyncBlockSize))
      ensures var level := LevelFor(tree, listing, manifest, oldListing, old(rsyncBlockSize), sha1);
              Flatten(queue) == StreamOf(level, msgpack) && newManifest == level.manifest
    {
      var earlier, recorded := OldFiles(manifest), rsyncBlockSize;
      rsyncBlockSize := AdoptedBlockSize(manifest, rsyncBlockSize);
      var unsigned, entries := CollectEntries(tree, listing, earlier);
      var deletions := CollectDeletions(tree, unsigned, oldListing);
      var headers := entries + deletions;
      EntriesInTree(tree, listing, earlier, oldListing, rsyncBlockSize, sha1);
      var files, data;
      data, files := ShipAndSign(tree, headers, unsigned);
      SignedIsNew(tree, listing, earlier, oldListing, rsyncBlockSize, sha1, unsigned, files);
      queue := [msgpack.encode(headers)] + data;
      FlattenAppend([msgpack.encode(headers)], data);
      assert Flatten([msgpack.encode(headers)]) == msgpack.encode(headers) + Flatten([]);
      newManifest := Manifest(files, recorded);
    }
  }

  /** After the third pass the metadata is exactly that of the new tree. */
  lemma SignedIsNew(tree: Tree, listing: seq<Path>, earlier: FilesMeta, oldListing: seq<Path>, bs: nat, h: Hash,
                    unsigned: FilesMeta, files: FilesMeta)
    requires bs > 0 && Complete(earlier) && Lists(listing, tree.Keys)
    requires unsigned == map p | p in tree :: UnsignedMeta(p, tree[p].stat, earlier)
    requires var headers := EntriesFor(tree, listing, earlier, bs, h) + DeletionsFor(tree, oldListing);
             HeadersIn(tree, headers) && Signed(tree, headers, unsigned, files, bs, h)
    ensures files == NewFiles(tree, earlier, bs, h)
  {
    forall p | p in tree
      ensures files[p] == MetaFor(p, tree[p], earlier, bs, h)
    {
      SignedAt(tree, listing, earlier, oldListing, bs, h, unsigned, files, p);
    }
  }

  lemma SignedAt(tree: Tree, listing: seq<Path>, earlier: FilesMeta, oldListing: seq<Path>, bs: nat, h: Hash,
                 unsigned: FilesMeta, files: FilesMeta, p: Path)
    requires bs > 0 && Complete(earlier) && Lists(listing, tree.Keys) && p in tree
    requires unsigned.Keys == tree.Keys && unsigned[p] == UnsignedMeta(p, tree[p].stat, earlier)
    requires var headers := EntriesFor(tree, listing, earlier, bs, h) + DeletionsFor(tree, oldListing);
             HeadersIn(tree, headers) && Signed(tree, headers, unsigned, files, bs, h)
    ensures files[p] == MetaFor(p, tree[p], earlier, bs, h)
  {
    EntriesOfListing(tree, listing, earlier, bs, h);
    DeletionsAreDeleted(tree, oldListing);
    EntryInHeaders(EntriesFor(tree, listing, earlier, bs, h), DeletionsFor(tree, oldListing), p);
    if !Skipped(p, tree[p].stat, earlier) {
      assert EntryFor(p, tree[p], earlier, bs, h).path == p;
    }
  }

  /** Deletion marks add no entries. */
  lemma EntryInHeaders(entries: seq<Header>, deletions: seq<Header>, p: Path)
    requires forall x :: x in deletions ==> x.Deleted?
    ensures forall x :: x in entries + deletions && x.Entry? ==> x in entries
    ensures forall x :: x in entries ==> x in entries + deletions
  {
  }
}
