/** What a record says of a file, and what a restore reads out of it (freezer/engine/rsync/rsync.py:434-459, 600-677). */
module FileRecords {
  import opened Bytes
  import opened HeaderText
  import opened RecordStream

  /** What the mode tells of a file; sockets are not written at all. */
  datatype Kind = Regular | Directory | Link | Character | BlockDevice | Fifo | Unknown
  {
    function Letter(): Byte {
      match this
      case Regular => 114
      case Directory => 100
      case Link => 108
      case Character => 99
      case BlockDevice => 98
      case Fifo => 112
      case Unknown => 117
    }

    /** Its content is backed up. */
    predicate Stored() {
      Regular? || Unknown?
    }
  }

  /** What `lstat` gives, with the names of owner and group and the target of a link. */
  datatype Info = Info(mode: nat, uid: nat, gid: nat, size: nat, mtime: nat, ctime: nat, uname: Data, gname: Data,
                       kind: Kind, lname: Data, inumber: nat, nlink: nat, devminor: nat, devmajor: nat)

  const VERSION := 1
  const BLOCK_SIZE := 4096

  /** The inode part of a header at level 0, item by item. */
  function InodeFields(x: Info): (fields: seq<Data>)
    ensures |fields| == INODE_FIELDS
  {
    [Digits(VERSION), Digits(x.mode), Digits(x.uid), Digits(x.gid), Digits(x.size), Digits(x.mtime), Digits(x.ctime),
     x.uname, x.gname, [x.kind.Letter()], x.lname, Digits(x.inumber), Digits(x.nlink), Digits(x.devminor),
     Digits(x.devmajor), Digits(BLOCK_SIZE), [48, 48, 48, 48], [48, 48, 48, 48]]
  }

  datatype File = File(path: Data, info: Info, content: Data)
  {
    /** No name holds a NUL, and the size is that of the content, where it is stored. */
    predicate Sound() {
      && NulFree(path) && NulFree(info.uname) && NulFree(info.gname) && NulFree(info.lname)
      && (info.kind.Stored() ==> info.size == |content|)
    }

    function Stored(): Data {
      if info.kind.Stored() then content else []
    }
  }

  function RecordOf(f: File): Record {
    Record(f.path, InodeFields(f.info), f.Stored())
  }

  function RecordsOf(files: seq<File>): (records: seq<Record>)
    ensures |records| == |files| && forall k :: 0 <= k < |files| ==> records[k] == RecordOf(files[k])
  {
    seq(|files|, k requires 0 <= k < |files| => RecordOf(files[k]))
  }

  /** The content is stored of regular files and of those of unknown kind, and of no others. */
  lemma StoredIff(x: Info)
    ensures IsRegFile(InodeFields(x)[FILE_TYPE - 2]) <==> x.kind.Regular? || x.kind.Unknown?
  {
    assert InodeFields(x)[FILE_TYPE - 2] == [x.kind.Letter()];
  }

  lemma FieldsAreNulFree(x: Info)
    requires NulFree(x.uname) && NulFree(x.gname) && NulFree(x.lname)
    ensures forall k :: 0 <= k < INODE_FIELDS ==> NulFree(InodeFields(x)[k])
  {
  }

  /** So the records of files with sound names and sizes are those that a restore gives back. */
  lemma RecordIsValid(f: File)
    requires f.Sound()
    ensures RecordOf(f).Valid()
  {
    FieldsAreNulFree(f.info);
    StoredIff(f.info);
    ParseOfDigits(f.info.mode);
    ParseOfDigits(f.info.size);
    ParseOfDigits(f.info.mtime);
  }

  /** What a restore uses of a record that came back: path, mode, times, kind, and what it writes. */
  ghost predicate Tells(made: Made, f: File) {
    && |made.fields| == 2 + INODE_FIELDS
    && made.fields[1] == f.path
    && ParseNumber(made.fields[MODE]) == Some(f.info.mode)
    && ParseNumber(made.fields[SIZE]) == Some(f.info.size)
    && ParseNumber(made.fields[MTIME]) == Some(f.info.mtime)
    && made.fields[FILE_TYPE] == [f.info.kind.Letter()]
    && made.content == (if f.info.kind.Regular? || f.info.kind.Unknown? then f.content else [])
  }

  lemma MadeTells(f: File)
    requires f.Sound()
    ensures Tells(Made(RecordOf(f).HeaderFields(), RecordOf(f).content), f)
  {
    ParseOfDigits(f.info.mode);
    ParseOfDigits(f.info.size);
    ParseOfDigits(f.info.mtime);
  }

  lemma {:induction false} MadeAt(records: seq<Record>, k: nat)
    requires k < |records|
    ensures MadeOf(records)[k] == Made(records[k].HeaderFields(), records[k].content)
  {
    if k > 0 {
      MadeAt(records[1..], k - 1);
    }
  }

  /**
   * For every list of files with sound names and sizes: the records are valid, and what comes back of each
   * tells its path, mode, time and kind, with its content if it is regular or of unknown kind.
   */
  lemma FilesComeBack(files: seq<File>, k: nat)
    requires (forall i :: 0 <= i < |files| ==> files[i].Sound()) && k < |files|
    ensures AllValid(RecordsOf(files)) && Tells(MadeOf(RecordsOf(files))[k], files[k])
  {
    forall i | 0 <= i < |files| ensures RecordsOf(files)[i].Valid() {
      RecordIsValid(files[i]);
    }
    MadeAt(RecordsOf(files), k);
    MadeTells(files[k]);
  }
}
