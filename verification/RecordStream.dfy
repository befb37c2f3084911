/** Level 0 of the first engine: writing records, and restoring them from a pipe (rsync.py:182-216, 321-339, 484-545). */
module RecordStream {
  import opened Bytes
  import opened Files
  import opened HeaderText

  /** The inode fields of a header: version, mode, uid, gid, size, times, names, type, link, numbers, level, removal. */
  const INODE_FIELDS := 18
  const MODE := 3
  const SIZE := 6
  const MTIME := 7
  const FILE_TYPE := 11
  const LEVEL_ID := 18
  const LEVEL_ZERO: Data := [48, 48, 48, 48]

  /** Types whose content is stored: regular, and unknown. */
  predicate IsRegFile(fileType: Data) {
    fileType == [114] || fileType == [117]
  }

  datatype Record = Record(path: Data, inode: seq<Data>, content: Data)
  {
    function HeaderFields(): seq<Data> {
      [Digits(|Header()|), path] + inode
    }

    function Header(): Data {
      GenFileHeader(path, Join(inode))
    }

    /** No field holds a NUL, and a stored file has as many bytes as its size field says. */
    ghost predicate Valid() {
      && NulFree(path) && |inode| == INODE_FIELDS
      && (forall k :: 0 <= k < |inode| ==> NulFree(inode[k]))
      && ParseNumber(inode[MODE - 2]).Some? && ParseNumber(inode[MTIME - 2]).Some?
      && (if IsRegFile(inode[FILE_TYPE - 2])
          then inode[SIZE - 2] == Digits(|content|) && inode[LEVEL_ID - 2] == LEVEL_ZERO
          else content == [] && ParseNumber(inode[SIZE - 2]).Some?)
    }

    function Encoded(): Data {
      Header() + content
    }
  }

  function StreamOf(records: seq<Record>): Data {
    if records == [] then [] else records[0].Encoded() + StreamOf(records[1..])
  }

  ghost predicate AllValid(records: seq<Record>) {
    forall k :: 0 <= k < |records| ==> records[k].Valid()
  }

  /** What the restore makes of one record: the header's fields, and the file content. */
  datatype Made = Made(fields: seq<Data>, content: Data)

  function MadeOf(records: seq<Record>): (made: seq<Made>)
    ensures |made| == |records|
  {
    if records == [] then []
    else [Made(records[0].HeaderFields(), records[0].content)] + MadeOf(records[1..])
  }

  // ---------- recognising a header ----------

  function LeadingDigits(d: Data): (n: nat)
    ensures n <= |d| && forall k :: 0 <= k < n ==> IsDigit(d[k])
    ensures n < |d| ==> !IsDigit(d[n])
  {
    if d == [] || !IsDigit(d[0]) then 0
    else
      var n := 1 + LeadingDigits(d[1..]);
      assert forall k :: 0 < k < n ==> d[k] == d[1..][k - 1];
      n
  }

  /** The pattern of a header's beginning: digits and a NUL; the digits are the header's length. */
  function MatchHeader(d: Data): Option<nat> {
    var n := LeadingDigits(d);
    if n > 0 && n < |d| && d[n] == NUL then Some(Number(d[..n])) else None
  }

  /** A number field, as far as plain decimals go. */
  function ParseNumber(d: Data): Option<nat> {
    if d != [] && LeadingDigits(d) == |d| then Some(Number(d)) else None
  }

  lemma {:induction false} LeadingDigitsIs(d: Data, n: nat)
    requires n <= |d| && (forall k :: 0 <= k < n ==> IsDigit(d[k])) && (n < |d| ==> !IsDigit(d[n]))
    ensures LeadingDigits(d) == n
  {
  }

  lemma ParseOfDigits(n: nat)
    ensures ParseNumber(Digits(n)) == Some(n)
  {
    NumberOfDigits(n);
    LeadingDigitsIs(Digits(n), |Digits(n)|);
  }

  /** Of a stream that starts with a header, any part that matches gives the header's length. */
  lemma MatchIsLength(data: Data, more: Data, length: nat, rest: Data)
    requires data + more == Digits(length) + [NUL] + rest
    ensures MatchHeader(data) == if |data| > |Digits(length)| then Some(length) else None
  {
    var digits := Digits(length);
    var all := digits + [NUL] + rest;
    var n := Min(|digits|, |data|);
    assert forall k :: 0 <= k < |data| ==> data[k] == (data + more)[k] == all[k];
    assert forall k :: 0 <= k < |digits| ==> all[k] == digits[k];
    assert all[|digits|] == NUL;
    LeadingDigitsIs(data, n);
    if |data| > |digits| {
      assert data[..n] == digits;
      NumberOfDigits(length);
    }
  }

  // ---------- reading from the pipe ----------

  lemma NextPart(s: Data, a: nat, rest: Data, more: Data, n: nat)
    requires a <= |s| && rest + more == s[a..] && n <= |rest|
    ensures a + n <= |s| && s[..a] + rest[..n] == s[..a + n] && rest[n..] + more == s[a + n..]
  {
    assert rest[..n] == (rest + more)[..n] && rest[n..] + more == (rest + more)[n..];
  }

  /** Pieces were read one by one, each while fewer than `need` bytes were at hand; `have` were at first. */
  ghost predicate ReadFor(before: seq<Data>, after: seq<Data>, have: nat, need: nat) {
    && |after| <= |before| && after == before[|before| - |after|..]
    && (|after| < |before| ==> have + |Flatten(before[..|before| - |after| - 1])| < need)
  }

  lemma ReadOneMore(before: seq<Data>, mid: seq<Data>, have: nat, need: nat)
    requires |mid| <= |before| && mid == before[|before| - |mid|..] && mid != []
    requires have + |Flatten(before)| - |Flatten(mid)| < need
    ensures ReadFor(before, mid[1..], have, need)
  {
    var r := |before| - |mid|;
    FlattenParts(before, r);
    DropOneMore(before, r);
    assert |before| - |mid[1..]| == r + 1;
  }

  lemma FlattenParts(pieces: seq<Data>, r: nat)
    requires r <= |pieces|
    ensures |Flatten(pieces[..r])| + |Flatten(pieces[r..])| == |Flatten(pieces)|
  {
    assert pieces[..r] + pieces[r..] == pieces;
    FlattenAppend(pieces[..r], pieces[r..]);
  }

  lemma DropOneMore(pieces: seq<Data>, r: nat)
    requires r < |pieces|
    ensures pieces[r..][1..] == pieces[r + 1..]
  {
  }

  /** `n` bytes of the stream `s` were added to the content `c`, and the others are still to come. */
  ghost predicate Filled(s: Data, c: Data, content: Data, n: int, rest: Data, pipe: seq<Data>) {
    && 0 <= n <= |s| && content == c + s[..n] && rest + Flatten(pipe) == s[n..]
    && |rest| + |Flatten(pipe)| == |s| - n
  }

  lemma FillMore(s: Data, c: Data, content: Data, n: nat, rest: Data, pipe: seq<Data>, written: nat)
    requires Filled(s, c, content, n, rest, pipe) && written <= |rest|
    ensures Filled(s, c, content + rest[..written], n + written, rest[written..], pipe)
  {
    NextPart(s, n, rest, Flatten(pipe), written);
    Associative(c, s[..n], rest[..written]);
  }

  class RsyncEngine {
    var pipe: seq<Data>

    constructor (pieces: seq<Data>)
      ensures pipe == pieces
    {
      pipe := pieces;
    }

    /** Writing one new file: its header, then its content in blocks of at most `bufferSize` bytes. */
    method PutRecord(path: Data, inode: seq<Data>, file: OpenFile, bufferSize: nat) returns (messages: seq<Data>)
      requires |inode| == INODE_FIELDS && bufferSize > 0 && file.pos == 0
      modifies file`pos
      ensures var stored := if IsRegFile(inode[FILE_TYPE - 2]) then file.content else [];
              Flatten(messages) == Record(path, inode, stored).Encoded()
      ensures forall k :: 0 < k < |messages| ==> 0 < |messages[k]| <= bufferSize
    {
      var header := GenFileHeader(path, Join(inode));
      messages := [header];
      assert Flatten([header]) == header + Flatten([]);
      if IsRegFile(inode[FILE_TYPE - 2]) {
        var block := file.Read(bufferSize);
        while block != []
          invariant |block| <= file.pos <= |file.content| && |block| <= bufferSize
          invariant block == file.content[file.pos - |block|..file.pos]
          invariant block == [] ==> file.pos == |file.content|
          invariant Flatten(messages) == header + file.content[..file.pos - |block|]
          invariant forall k :: 0 < k < |messages| ==> 0 < |messages[k]| <= bufferSize
          decreases |file.content| - file.pos + |block|
        {
          FlattenSnoc(messages, block);
          Associative(header, file.content[..file.pos - |block|], block);
          assert file.content[..file.pos - |block|] + block == file.content[..file.pos];
          messages := messages + [block];
          block := file.Read(bufferSize);
        }
        assert file.content[..|file.content|] == file.content;
      }
    }

    /** `recv_bytes`; None at the end of the pipe. */
    method RecvBytes() returns (piece: Option<Data>)
      modifies this
      ensures piece.None? <==> old(pipe) == []
      ensures piece.None? ==> pipe == []
      ensures piece.Some? ==> piece.value == old(pipe)[0] && pipe == old(pipe)[1..]
    {
      if pipe == [] {
        return None;
      }
      piece := Some(pipe[0]);
      pipe := pipe[1..];
    }

    /**
     * The file gets the next `size` bytes of what is buffered and still to come, however the pieces are
     * cut, and the rest is handed back; a stream that ends early gives what there is.
     */
    method WriteFile(fd: OpenFile, size: nat, dataChunk: Data, flushed: bool) returns (rest: Data)
      requires fd.pos == |fd.content| && (flushed ==> pipe == [])
      modifies this, fd
      ensures var s := dataChunk + Flatten(old(pipe));
              && fd.content == old(fd.content) + s[..Min(size, |s|)]
              && rest + Flatten(pipe) == s[Min(size, |s|)..]
      ensures ReadFor(old(pipe), pipe, |dataChunk|, size)
    {
      ghost var s, c := dataChunk + Flatten(pipe), fd.content;
      var left, flush := size, flushed;
      rest := dataChunk;
      assert c + s[..0] == c;
      while left > 0
        invariant fd.pos == |fd.content| && (flush ==> pipe == []) && 0 <= left <= size
        invariant Filled(s, c, fd.content, size - left, rest, pipe)
        invariant ReadFor(old(pipe), pipe, |dataChunk|, size)
        decreases |pipe|, if flush then 0 else 1, left
      {
        var written := Min(|rest|, left);
        FillMore(s, c, fd.content, size - left, rest, pipe, written);
        fd.Append(rest[..written]);
        rest := rest[written..];
        left := left - written;
        if left > 0 && !flush {
          if pipe != [] {
            ReadOneMore(old(pipe), pipe, |dataChunk|, size);
            Associative(rest, pipe[0], Flatten(pipe[1..]));
          }
          var piece := RecvBytes();
          if piece.Some? {
            rest := rest + piece.value;
          } else {
            flush := true;
          }
        } else if flush {
          break;
        }
      }
      assert size - left == Min(size, |s|);
    }

    /** `make_files` for one record; None when a field is missing or unreadable. */
    method MakeFiles(fields: seq<Data>, dataChunk: Data, flushed: bool) returns (made: Option<Made>, rest: Data)
      requires flushed ==> pipe == []
      modifies this
      ensures MadeFrom(fields, dataChunk, old(pipe), made, rest, pipe)
    {
      rest := dataChunk;
      if |fields| < 2 + INODE_FIELDS || ParseNumber(fields[MODE]).None? || ParseNumber(fields[SIZE]).None?
         || ParseNumber(fields[MTIME]).None? {
        return None, rest;
      }
      var fd := new OpenFile([]);
      if IsRegFile(fields[FILE_TYPE]) {
        if fields[LEVEL_ID] != LEVEL_ZERO {
          return None, rest;
        }
        rest := WriteFile(fd, ParseNumber(fields[SIZE]).value, dataChunk, flushed);
      }
      assert fd.content == (dataChunk + Flatten(old(pipe)))[..|fd.content|];
      made := Some(Made(fields, fd.content));
    }

    /** The one refill a header may get when the buffer is shorter than the header. */
    method RefillOnce(headerLen: nat, dataChunk: Data, flushed: bool) returns (data: Data, flush: bool)
      requires flushed ==> pipe == []
      modifies this
      ensures flush ==> pipe == []
      ensures Refilled(headerLen, dataChunk, old(pipe), data, pipe)
    {
      data, flush := dataChunk, flushed;
      if headerLen > |dataChunk| && !flushed {
        var piece := RecvBytes();
        if piece.Some? {
          data := dataChunk + piece.value;
        } else {
          flush := true;
        }
      }
      assert dataChunk + [] == dataChunk;
    }

    /**
     * One record whose header has been found. It comes back when the header fits; otherwise it is cut
     * short, which raises or gives other fields.
     */
    method RestoreRecord(headerLen: nat, dataChunk: Data, flushed: bool,
                         ghost all: seq<Data>, ghost records: seq<Record>, ghost k: nat, ghost made: seq<Made>)
      returns (next: Option<Made>, rest: Data, flush: bool)
      requires flushed ==> pipe == []
      modifies this
      ensures flush ==> pipe == []
      ensures next.Some? ==> |rest| + |Flatten(pipe)| < |dataChunk| + |Flatten(old(pipe))|
      ensures Found(all, records, k, made, dataChunk, old(pipe)) && headerLen == |records[k].Header()| ==>
                Advanced(all, records, k, made, next, rest, pipe)
    {
      ghost var start := pipe;
      rest, flush := RefillOnce(headerLen, dataChunk, flushed);
      ghost var data, mid := rest, pipe;
      RefillKeepsBytes(headerLen, dataChunk, start, data, mid);
      var taken := Min(headerLen, |rest|);
      var fields := Split(rest[..taken]);
      rest := rest[taken..];
      ghost var behind := rest;
      next, rest := MakeFiles(fields, rest, flush);
      MadeTakes(data[..taken], behind, mid, next, rest, pipe);
      if Found(all, records, k, made, dataChunk, start) && headerLen == |records[k].Header()| {
        OneRecord(all, records, k, made, dataChunk, start, data, mid, next, rest, pipe);
      }
    }

    /**
     * Restoring a level 0 stream: every record comes back with the fields and the content that were written
     * exactly when, in every header, at most one piece ends behind its length field.
     */
    method RestoreLevel(ghost records: seq<Record>) returns (made: seq<Made>, raised: bool)
      modifies this
      ensures old(pipe) != [] && Flatten(old(pipe)) == StreamOf(records) && AllValid(records) ==>
                (!raised && made == MadeOf(records) <==> HeadersFit(old(pipe), records))
    {
      ghost var all := pipe;
      ghost var valid := pipe != [] && Flatten(pipe) == StreamOf(records) && AllValid(records);
      ghost var k, wrong := 0, false;
      made, raised := [], false;
      var piece := RecvBytes();
      if piece.None? {
        return [], true;
      }
      var dataChunk, flushed := piece.value, false;
      if valid {
        FirstPiece(all, records);
      }
      while true
        invariant flushed ==> pipe == []
        invariant valid ==> Standing(all, records, k, wrong, made, dataChunk, pipe)
        decreases |dataChunk| + |Flatten(pipe)|, |pipe|, if flushed then 0 else 1
      {
        var found := MatchHeader(dataChunk);
        if valid {
          LookingOn(all, records, k, wrong, made, dataChunk, pipe);
        }
        if found.None? && !flushed {
          piece := RecvBytes();
          if piece.Some? {
            dataChunk := dataChunk + piece.value;
            continue;
          }
          flushed := true;
        }
        if dataChunk == [] || found.None? {
          break;
        }
        var next;
        ghost var before := made;
        next, dataChunk, flushed := RestoreRecord(found.value, dataChunk, flushed, all, records, k, made);
        if valid {
          wrong := AfterRecord(all, records, k, wrong, before, next, dataChunk, pipe);
        }
        if next.None? {
          return made, true;
        }
        made := made + [next.value];
        k := if wrong then k else k + 1;
      }
    }
  }

  /** What one record needs of the stream, or None where `make_files` raises. */
  function FileSize(fields: seq<Data>): Option<nat> {
    if |fields| < 2 + INODE_FIELDS || ParseNumber(fields[MODE]).None? || ParseNumber(fields[SIZE]).None?
       || ParseNumber(fields[MTIME]).None? then None
    else if !IsRegFile(fields[FILE_TYPE]) then Some(0)
    else if fields[LEVEL_ID] == LEVEL_ZERO then ParseNumber(fields[SIZE])
    else None
  }

  /** What `make_files` makes of a header's fields, the buffer and the pipe. */
  ghost predicate MadeFrom(fields: seq<Data>, data: Data, before: seq<Data>, made: Option<Made>, rest: Data,
                           after: seq<Data>)
  {
    match FileSize(fields)
    case None => made.None? && after == before
    case Some(size) =>
      var s := data + Flatten(before);
      var n := Min(size, |s|);
      && made == Some(Made(fields, s[..n])) && rest + Flatten(after) == s[n..]
      && ReadFor(before, after, |data|, size)
  }

  /** A record comes only from a header that is not empty, and takes what it takes from the stream. */
  lemma MadeTakes(header: Data, data: Data, before: seq<Data>, made: Option<Made>, rest: Data, after: seq<Data>)
    requires MadeFrom(Split(header), data, before, made, rest, after)
    ensures made.Some? ==> header != [] && |rest| + |Flatten(after)| <= |data| + |Flatten(before)|
  {
    if made.Some? {
      var s := data + Flatten(before);
      assert |rest + Flatten(after)| <= |s|;
    }
  }

  // ---------- where pieces end ----------

  /** The position in the stream where the first `i` pieces end. */
  function End(pieces: seq<Data>, i: nat): nat
    requires i <= |pieces|
  {
    |Flatten(pieces[..i])|
  }

  function StartOf(records: seq<Record>, k: nat): int
    requires k <= |records|
  {
    |StreamOf(records)| - |StreamOf(records[k..])|
  }

  /**
   * The header of `length` bytes at `start` is complete after one refill: behind a piece that ends behind
   * its length field and NUL, the next one reaches its end.
   */
  ghost predicate HeaderFits(pieces: seq<Data>, start: int, length: nat) {
    forall i :: 1 <= i < |pieces| && End(pieces, i) > start + |Digits(length)| ==> End(pieces, i + 1) >= start + length
  }

  ghost predicate HeadersFit(pieces: seq<Data>, records: seq<Record>) {
    forall k :: 0 <= k < |records| ==> HeaderFits(pieces, StartOf(records, k), |records[k].Header()|)
  }

  lemma EndNext(pieces: seq<Data>, i: nat)
    requires i < |pieces|
    ensures End(pieces, i + 1) == End(pieces, i) + |pieces[i]|
  {
    assert pieces[..i + 1] == pieces[..i] + [pieces[i]];
    FlattenSnoc(pieces[..i], pieces[i]);
  }

  lemma {:induction false} EndsGrow(pieces: seq<Data>, i: nat, j: nat)
    requires i <= j <= |pieces|
    ensures End(pieces, i) <= End(pieces, j)
  {
    if i < j {
      EndsGrow(pieces, i, j - 1);
      EndNext(pieces, j - 1);
    }
  }

  /** With `j` the first piece that ends behind the length field, one more must do. */
  lemma FitsAtFirst(pieces: seq<Data>, start: int, length: nat, j: nat)
    requires 1 <= j <= |pieces| && End(pieces, j) > start + |Digits(length)| && start + length <= End(pieces, |pieces|)
    requires j == 1 || End(pieces, j - 1) <= start + |Digits(length)|
    ensures HeaderFits(pieces, start, length) <==>
              End(pieces, j) >= start + length || (j < |pieces| && End(pieces, j + 1) >= start + length)
  {
    if j < |pieces| {
      EndsGrow(pieces, j, j + 1);
      forall i | 1 <= i < |pieces| && End(pieces, i) > start + |Digits(length)|
        ensures i >= j && End(pieces, i + 1) >= End(pieces, j + 1)
      {
        if i < j {
          EndsGrow(pieces, i, j - 1);
        } else {
          EndsGrow(pieces, j + 1, i + 1);
        }
      }
    } else {
      forall i | 1 <= i < |pieces| && End(pieces, i) > start + |Digits(length)| ensures false {
        EndsGrow(pieces, i, j - 1);
      }
    }
  }

  /** Pieces that can each hold a header, but for the last one, always fit. */
  lemma LongPiecesFit(pieces: seq<Data>, records: seq<Record>, m: nat)
    requires Flatten(pieces) == StreamOf(records)
    requires forall i :: 0 <= i < |pieces| - 1 ==> |pieces[i]| >= m
    requires forall k :: 0 <= k < |records| ==> |records[k].Header()| <= m
    ensures HeadersFit(pieces, records)
  {
    forall k | 0 <= k < |records| ensures HeaderFits(pieces, StartOf(records, k), |records[k].Header()|) {
      HeaderInStream(records, k);
      LongPiecesFitOne(pieces, StartOf(records, k), |records[k].Header()|, m);
    }
  }

  lemma LongPiecesFitOne(pieces: seq<Data>, start: int, length: nat, m: nat)
    requires forall i :: 0 <= i < |pieces| - 1 ==> |pieces[i]| >= m
    requires length <= m && start + length <= |Flatten(pieces)|
    ensures HeaderFits(pieces, start, length)
  {
    forall i | 1 <= i < |pieces| && End(pieces, i) > start + |Digits(length)|
      ensures End(pieces, i + 1) >= start + length
    {
      EndNext(pieces, i);
      if i == |pieces| - 1 {
        assert pieces[..|pieces|] == pieces;
      }
    }
  }

  lemma {:induction false} HeaderInStream(records: seq<Record>, k: nat)
    requires k < |records|
    ensures 0 <= StartOf(records, k) && StartOf(records, k) + |records[k].Header()| <= |StreamOf(records)|
    ensures StartOf(records, k + 1) == StartOf(records, k) + |records[k].Header()| + |records[k].content|
    decreases k
  {
    assert records[k..][0] == records[k] && records[k..][1..] == records[k + 1..];
    StreamShrinks(records, k);
  }

  lemma {:induction false} StreamShrinks(records: seq<Record>, k: nat)
    requires k <= |records|
    ensures |StreamOf(records[k..])| <= |StreamOf(records)|
  {
    if k == 0 {
      assert records[0..] == records;
    } else {
      StreamShrinks(records, k - 1);
      assert records[k - 1..][1..] == records[k..];
    }
  }

  // ---------- where the restore stands ----------

  /** The buffer and the pipe hold what is left of the pieces; at least one was read. */
  ghost predicate Holds(all: seq<Data>, data: Data, pipe: seq<Data>) {
    && |pipe| < |all| && pipe == all[|all| - |pipe|..]
    && |data| + |Flatten(pipe)| <= |Flatten(all)|
  }

  /** Between two records: all of the last piece but what is in the buffer was needed. */
  ghost predicate Reading(all: seq<Data>, records: seq<Record>, k: nat, made: seq<Made>, data: Data, pipe: seq<Data>) {
    && Holds(all, data, pipe) && Progress(records, k, made, data + Flatten(pipe))
    && (|pipe| + 1 == |all| || |data| < |all[|all| - |pipe| - 1]|)
  }

  /** On the way to a header: pieces are read only until its length field and NUL are there. */
  ghost predicate Finding(all: seq<Data>, records: seq<Record>, k: nat, made: seq<Made>, data: Data, pipe: seq<Data>) {
    && Holds(all, data, pipe) && Flatten(all) == StreamOf(records) && AllValid(records)
    && Progress(records, k, made, data + Flatten(pipe))
    && (forall i :: 0 <= i < k ==> HeaderFits(all, StartOf(records, i), |records[i].Header()|))
    && (k < |records| && |pipe| + 1 < |all| ==>
          |data| <= |all[|all| - |pipe| - 1]| + |Digits(|records[k].Header()|)|)
  }

  ghost predicate Found(all: seq<Data>, records: seq<Record>, k: nat, made: seq<Made>, data: Data, pipe: seq<Data>) {
    Finding(all, records, k, made, data, pipe) && k < |records| && |data| > |Digits(|records[k].Header()|)|
  }

  /** The first `k` records are restored and the rest of the stream holds the others. */
  ghost predicate Progress(records: seq<Record>, k: nat, made: seq<Made>, left: Data) {
    && k <= |records| && made + MadeOf(records[k..]) == MadeOf(records) && left == StreamOf(records[k..])
  }

  lemma NextRecord(records: seq<Record>, k: nat, made: seq<Made>, left: Data)
    requires Progress(records, k, made, left) && k < |records|
    ensures left == records[k].Header() + (records[k].content + StreamOf(records[k + 1..]))
    ensures Progress(records, k + 1, made + [Made(records[k].HeaderFields(), records[k].content)],
                     StreamOf(records[k + 1..]))
  {
  }

  lemma StreamTaken(content: Data, others: Data)
    ensures (content + others)[..|content|] == content && (content + others)[|content|..] == others
  {
  }

  lemma HeaderStarts(r: Record, rest: Data)
    ensures r.Header() + rest == Digits(|r.Header()|) + [NUL] + (r.path + [NUL] + Join(r.inode) + rest)
  {
    HeaderCountsItself(r.path, Join(r.inode));
    LedThen(Digits(|r.Header()|), r.path, Join(r.inode), rest);
  }

  lemma LedThen(digits: Data, path: Data, inode: Data, rest: Data)
    ensures LedBy(digits, path, inode) + rest == digits + [NUL] + (path + [NUL] + inode + rest)
  {
  }

  /** While records are left, a part of the stream matches once the length field is there, with that length. */
  lemma MatchedIff(records: seq<Record>, k: nat, made: seq<Made>, data: Data, more: Data)
    requires Progress(records, k, made, data + more)
    ensures k == |records| ==> data == [] && MatchHeader(data).None?
    ensures k < |records| ==>
              var n := |records[k].Header()|;
              && MatchHeader(data) == (if |data| > |Digits(n)| then Some(n) else None)
              && (more == [] ==> |data| >= n)
  {
    if k == |records| {
      assert records[k..] == [];
      assert data == [];
    } else {
      NextRecord(records, k, made, data + more);
      var rest := records[k].content + StreamOf(records[k + 1..]);
      HeaderStarts(records[k], rest);
      MatchIsLength(data, more, |records[k].Header()|,
                    records[k].path + [NUL] + Join(records[k].inode) + rest);
    }
  }

  lemma LengthIsShort(r: Record)
    ensures |Digits(|r.Header()|)| < |r.Header()|
  {
    HeaderStarts(r, []);
    assert r.Header() + [] == r.Header();
  }

  lemma EndOfRest(all: seq<Data>, rest: seq<Data>)
    requires |rest| <= |all| && rest == all[|all| - |rest|..]
    ensures End(all, |all| - |rest|) == |Flatten(all)| - |Flatten(rest)|
  {
    assert all[..|all| - |rest|] + rest == all;
    FlattenAppend(all[..|all| - |rest|], rest);
  }

  lemma FirstPiece(all: seq<Data>, records: seq<Record>)
    requires all != [] && Flatten(all) == StreamOf(records) && AllValid(records)
    ensures Finding(all, records, 0, [], all[0], all[1..])
  {
    assert records[0..] == records && [] + MadeOf(records) == MadeOf(records);
  }

  lemma FindingGoesOn(all: seq<Data>, records: seq<Record>, k: nat, made: seq<Made>, data: Data, pipe: seq<Data>)
    requires Finding(all, records, k, made, data, pipe) && pipe != []
    requires k < |records| ==> |data| <= |Digits(|records[k].Header()|)|
    ensures Finding(all, records, k, made, data + pipe[0], pipe[1..])
  {
    Associative(data, pipe[0], Flatten(pipe[1..]));
    assert pipe[1..] == all[|all| - |pipe| + 1..] && all[|all| - |pipe|] == pipe[0];
  }

  predicate Refilled(length: nat, before: Data, start: seq<Data>, data: Data, pipe: seq<Data>) {
    var more := length > |before| && start != [];
    data == before + (if more then start[0] else []) && pipe == if more then start[1..] else start
  }

  lemma RefillKeepsBytes(length: nat, before: Data, start: seq<Data>, data: Data, pipe: seq<Data>)
    requires Refilled(length, before, start, data, pipe)
    ensures data + Flatten(pipe) == before + Flatten(start)
  {
    if length > |before| && start != [] {
      Associative(before, start[0], Flatten(start[1..]));
    } else {
      assert before + [] == before;
    }
  }

  /** The buffer after the refill holds the whole header exactly when the header fits. */
  lemma RefillFitsIff(all: seq<Data>, records: seq<Record>, k: nat, made: seq<Made>, before: Data, start: seq<Data>,
                      data: Data, pipe: seq<Data>)
    requires Found(all, records, k, made, before, start)
    requires Refilled(|records[k].Header()|, before, start, data, pipe)
    ensures HeaderFits(all, StartOf(records, k), |records[k].Header()|) <==> |data| >= |records[k].Header()|
    ensures Taking(all, records, k, made, data, pipe)
  {
    LengthIsShort(records[k]);
    RefillKeepsBytes(|records[k].Header()|, before, start, data, pipe);
    RefillFits(all, records, k, made, before, start, data, pipe);
    SuffixOfSuffix(all, start, pipe);
  }

  lemma RefillFits(all: seq<Data>, records: seq<Record>, k: nat, made: seq<Made>, before: Data, start: seq<Data>,
                   data: Data, pipe: seq<Data>)
    requires Found(all, records, k, made, before, start)
    requires Refilled(|records[k].Header()|, before, start, data, pipe)
    ensures HeaderFits(all, StartOf(records, k), |records[k].Header()|) <==> |data| >= |records[k].Header()|
  {
    FoundAt(all, records, k, made, before, start);
    LengthIsShort(records[k]);
    FitsAtFirst(all, StartOf(records, k), |records[k].Header()|, |all| - |start|);
  }

  /** The header found starts in front of the buffer, whose last piece was needed for its length field. */
  lemma FoundAt(all: seq<Data>, records: seq<Record>, k: nat, made: seq<Made>, before: Data, start: seq<Data>)
    requires Found(all, records, k, made, before, start)
    ensures var j, p := |all| - |start|, StartOf(records, k);
            && End(all, j) == p + |before|
            && (j == 1 || End(all, j - 1) <= p + |Digits(|records[k].Header()|)|)
            && (start != [] ==> End(all, j + 1) == p + |before| + |start[0]|)
            && p + |records[k].Header()| <= End(all, |all|)
  {
    var j := |all| - |start|;
    EndOfRest(all, start);
    EndNext(all, j - 1);
    HeaderInStream(records, k);
    assert all[..|all|] == all;
    if start != [] {
      EndNext(all, j);
      assert all[j] == start[0];
    }
  }

  /** With the header found and refilled: what was read last was needed for the header. */
  ghost predicate Taking(all: seq<Data>, records: seq<Record>, k: nat, made: seq<Made>, data: Data, pipe: seq<Data>) {
    && Holds(all, data, pipe) && k < |records| && AllValid(records)
    && Progress(records, k, made, data + Flatten(pipe))
    && (|pipe| + 1 < |all| ==> |data| < |all[|all| - |pipe| - 1]| + |records[k].Header()|)
  }

  /** A complete header is split into the record's fields, and the file takes the record's content. */
  lemma RecordTaken(all: seq<Data>, records: seq<Record>, k: nat, made: seq<Made>, data: Data, mid: seq<Data>,
                    rest: Data, pipe: seq<Data>)
    requires Taking(all, records, k, made, data, mid) && |data| >= |records[k].Header()|
    requires var s, n := data[|records[k].Header()|..] + Flatten(mid), |records[k].content|;
             n <= |s| ==> rest + Flatten(pipe) == s[n..]
    requires ReadFor(mid, pipe, |data| - |records[k].Header()|, |records[k].content|)
    ensures var s := data[|records[k].Header()|..] + Flatten(mid);
            && Split(data[..|records[k].Header()|]) == records[k].HeaderFields()
            && FileSize(records[k].HeaderFields()) == Some(|records[k].content|)
            && |records[k].content| <= |s| && s[..|records[k].content|] == records[k].content
    ensures Reading(all, records, k + 1, made + [Made(records[k].HeaderFields(), records[k].content)], rest, pipe)
  {
    HeaderTaken(records, k, made, data, Flatten(mid));
    NextRecord(records, k, made, data + Flatten(mid));
    StreamTaken(records[k].content, StreamOf(records[k + 1..]));
    LastReadNeeded(all, data, mid, rest, pipe, |records[k].Header()|, |records[k].content|);
  }

  lemma LastReadNeeded(all: seq<Data>, data: Data, mid: seq<Data>, rest: Data, pipe: seq<Data>, header: nat, size: nat)
    requires Holds(all, data, mid) && header <= |data| && ReadFor(mid, pipe, |data| - header, size)
    requires |mid| + 1 < |all| ==> |data| < |all[|all| - |mid| - 1]| + header
    requires header + size + |rest| + |Flatten(pipe)| == |data| + |Flatten(mid)|
    ensures Holds(all, rest, pipe)
    ensures |pipe| + 1 == |all| || |rest| < |all[|all| - |pipe| - 1]|
  {
    SuffixOfSuffix(all, mid, pipe);
    if |pipe| < |mid| {
      EndOfRest(mid, pipe);
      EndNext(mid, |mid| - |pipe| - 1);
    }
  }

  lemma SuffixOfSuffix(all: seq<Data>, mid: seq<Data>, pipe: seq<Data>)
    requires |pipe| <= |mid| < |all| && mid == all[|all| - |mid|..] && pipe == mid[|mid| - |pipe|..]
    ensures pipe == all[|all| - |pipe|..]
    ensures |pipe| < |mid| ==> mid[|mid| - |pipe| - 1] == all[|all| - |pipe| - 1]
  {
  }

  /** A header cut short gives other fields. */
  lemma CutHeaderDiffers(r: Record, data: Data)
    requires r.Valid() && |data| < |r.Header()|
    ensures Split(data) != r.HeaderFields()
  {
    HeaderFieldsSplit(r);
    JoinOfSplit(data);
    JoinOfSplit(r.Header());
  }

  /** The record comes back when its header fits; otherwise the header is cut short. */
  ghost predicate Advanced(all: seq<Data>, records: seq<Record>, k: nat, made: seq<Made>, next: Option<Made>,
                           rest: Data, pipe: seq<Data>)
    requires k < |records|
  {
    if HeaderFits(all, StartOf(records, k), |records[k].Header()|) then
      && next == Some(Made(records[k].HeaderFields(), records[k].content))
      && Reading(all, records, k + 1, made + [next.value], rest, pipe)
    else next.None? || next.value.fields != records[k].HeaderFields()
  }

  lemma WholeRecord(all: seq<Data>, records: seq<Record>, k: nat, made: seq<Made>, data: Data, mid: seq<Data>,
                    next: Option<Made>, rest: Data, pipe: seq<Data>)
    requires Taking(all, records, k, made, data, mid) && |data| >= |records[k].Header()|
    requires var n := |records[k].Header()|; MadeFrom(Split(data[..n]), data[n..], mid, next, rest, pipe)
    ensures next == Some(Made(records[k].HeaderFields(), records[k].content))
    ensures Reading(all, records, k + 1, made + [next.value], rest, pipe)
  {
    HeaderTaken(records, k, made, data, Flatten(mid));
    RecordTaken(all, records, k, made, data, mid, rest, pipe);
  }

  lemma OneRecord(all: seq<Data>, records: seq<Record>, k: nat, made: seq<Made>, before: Data, start: seq<Data>,
                  data: Data, mid: seq<Data>, next: Option<Made>, rest: Data, pipe: seq<Data>)
    requires Found(all, records, k, made, before, start)
    requires Refilled(|records[k].Header()|, before, start, data, mid)
    requires var taken := Min(|records[k].Header()|, |data|);
             MadeFrom(Split(data[..taken]), data[taken..], mid, next, rest, pipe)
    ensures Advanced(all, records, k, made, next, rest, pipe)
  {
    RefillFitsIff(all, records, k, made, before, start, data, mid);
    if |data| >= |records[k].Header()| {
      WholeRecord(all, records, k, made, data, mid, next, rest, pipe);
    } else {
      assert data[..|data|] == data;
      CutHeaderDiffers(records[k], data);
    }
  }

  /** The loop over a stream of valid records: in front of record `k`, or past a record that came back wrong. */
  ghost predicate Standing(all: seq<Data>, records: seq<Record>, k: nat, wrong: bool, made: seq<Made>, data: Data,
                           pipe: seq<Data>)
  {
    if wrong then
      k < |records| && k < |made| && made[k] != MadeOf(records)[k] && !HeadersFit(all, records)
    else Finding(all, records, k, made, data, pipe)
  }

  /** Where the search for a header stands: found, or to be continued with the next piece, or at the end. */
  lemma LookingOn(all: seq<Data>, records: seq<Record>, k: nat, wrong: bool, made: seq<Made>, data: Data,
                  pipe: seq<Data>)
    requires Standing(all, records, k, wrong, made, data, pipe)
    ensures var found := MatchHeader(data);
            && (found.Some? && !wrong ==>
                  Found(all, records, k, made, data, pipe) && found.value == |records[k].Header()|)
            && (found.None? && pipe != [] ==> Standing(all, records, k, wrong, made, data + pipe[0], pipe[1..]))
            && (found.None? && pipe == [] && !wrong ==> made == MadeOf(records) && HeadersFit(all, records))
    ensures pipe != [] ==> |data + pipe[0]| + |Flatten(pipe[1..])| == |data| + |Flatten(pipe)|
  {
    if !wrong {
      MatchedIff(records, k, made, data, Flatten(pipe));
      if MatchHeader(data).None? {
        if pipe != [] {
          FindingGoesOn(all, records, k, made, data, pipe);
        } else {
          NothingLeft(records, k, made, data);
        }
      }
    }
  }

  lemma NothingLeft(records: seq<Record>, k: nat, made: seq<Made>, data: Data)
    requires Progress(records, k, made, data) && MatchHeader(data).None?
    ensures k == |records| && made == MadeOf(records)
  {
    assert data + [] == data;
    MatchedIff(records, k, made, data, []);
    if k < |records| {
      LengthIsShort(records[k]);
    }
    assert records[k..] == [] && made + MadeOf([]) == made;
  }

  lemma AfterRecord(all: seq<Data>, records: seq<Record>, k: nat, wrong: bool, made: seq<Made>, next: Option<Made>,
                    rest: Data, pipe: seq<Data>) returns (nowWrong: bool)
    requires wrong ==> k < |records| && k < |made| && made[k] != MadeOf(records)[k] && !HeadersFit(all, records)
    requires !wrong ==>
               && k < |records| && Flatten(all) == StreamOf(records) && AllValid(records)
               && made + MadeOf(records[k..]) == MadeOf(records)
               && (forall i :: 0 <= i < k ==> HeaderFits(all, StartOf(records, i), |records[i].Header()|))
               && Advanced(all, records, k, made, next, rest, pipe)
    ensures next.None? ==> !HeadersFit(all, records)
    ensures next.Some? ==>
              Standing(all, records, if nowWrong then k else k + 1, nowWrong, made + [next.value], rest, pipe)
  {
    nowWrong := wrong;
    if !wrong {
      MadePrefix(records, k, made);
      nowWrong := !HeaderFits(all, StartOf(records, k), |records[k].Header()|);
      if !nowWrong {
        ReadingIsFinding(all, records, k + 1, made + [next.value], rest, pipe);
      }
    }
  }

  lemma ReadingIsFinding(all: seq<Data>, records: seq<Record>, k: nat, made: seq<Made>, data: Data, pipe: seq<Data>)
    requires Reading(all, records, k, made, data, pipe) && Flatten(all) == StreamOf(records) && AllValid(records)
    requires forall i :: 0 <= i < k ==> HeaderFits(all, StartOf(records, i), |records[i].Header()|)
    ensures Finding(all, records, k, made, data, pipe)
  {
  }

  /** While the records come back, the next one is compared with the next that was written. */
  lemma MadePrefix(records: seq<Record>, k: nat, made: seq<Made>)
    requires k < |records| && made + MadeOf(records[k..]) == MadeOf(records)
    ensures |made| == k
    ensures MadeOf(records)[k] == Made(records[k].HeaderFields(), records[k].content)
  {
    assert MadeOf(records)[k] == (made + MadeOf(records[k..]))[k] == MadeOf(records[k..])[0];
  }

  lemma HeaderFieldsSplit(r: Record)
    requires r.Valid()
    ensures Split(r.Header()) == r.HeaderFields()
    ensures FileSize(r.HeaderFields()) == Some(|r.content|)
  {
    var fields := r.HeaderFields();
    HeaderCountsItself(r.path, Join(r.inode));
    assert fields[1..] == [r.path] + r.inode && fields[1..][1..] == r.inode;
    assert Join(fields) == r.Header();
    SplitOfJoin(fields);
    ParseOfDigits(|r.content|);
  }

  /** Once the header is in the buffer, cutting it off leaves the record's content and the other records. */
  lemma HeaderTaken(records: seq<Record>, k: nat, made: seq<Made>, data: Data, more: Data)
    requires Progress(records, k, made, data + more) && k < |records| && AllValid(records)
    requires |records[k].Header()| <= |data|
    ensures var n := |records[k].Header()|;
            && Split(data[..n]) == records[k].HeaderFields()
            && data[n..] + more == records[k].content + StreamOf(records[k + 1..])
            && FileSize(records[k].HeaderFields()) == Some(|records[k].content|)
  {
    NextRecord(records, k, made, data + more);
    var h := records[k].Header();
    assert data[..|h|] == (data + more)[..|h|] == h;
    assert data[|h|..] + more == (data + more)[|h|..];
    HeaderFieldsSplit(records[k]);
  }
}
