/** An open file with a cursor, with the POSIX meaning of seek, write and truncate. */
module Files {
  import opened Bytes

  function Zeros(n: nat): (z: Data)
    ensures |z| == n && forall i :: 0 <= i < n ==> z[i] == 0
  {
    seq(n, _ => 0)
  }

  /** The content after writing `data` at offset `off`; a gap reads as zeros. */
  function WriteAt(c: Data, off: nat, data: Data): Data {
    if data == [] then c
    else
      var padded := if |c| < off then c + Zeros(off - |c|) else c;
      padded[..off] + data + if off + |data| < |padded| then padded[off + |data|..] else []
  }

  /** Written bytes are in place, other bytes are kept, and a gap is zero. */
  lemma WriteAtBytes(c: Data, off: nat, data: Data, p: nat)
    ensures var r := WriteAt(c, off, data);
            && (data != [] ==> |r| == Max(|c|, off + |data|))
            && (off <= p < off + |data| ==> r[p] == data[p - off])
            && (p < |c| && !(off <= p < off + |data|) ==> p < |r| && r[p] == c[p])
            && (data != [] && |c| <= p < off ==> r[p] == 0)
  {
  }

  /** The content after truncating to `n` bytes, which also extends with zeros. */
  function Resize(c: Data, n: nat): (r: Data)
    ensures |r| == n
    ensures forall i :: 0 <= i < n && i < |c| ==> r[i] == c[i]
    ensures forall i :: |c| <= i < n ==> r[i] == 0
  {
    if n <= |c| then c[..n] else c + Zeros(n - |c|)
  }

  class OpenFile {
    var content: Data
    var pos: nat

    constructor (initial: Data)
      ensures content == initial && pos == 0
    {
      content, pos := initial, 0;
    }

    /** At most `n` bytes from the cursor; empty at the end of the file. */
    method Read(n: nat) returns (data: Data)
      modifies this`pos
      ensures data == content[Min(old(pos), |content|)..Min(old(pos) + n, |content|)]
      ensures pos == old(pos) + |data|
    {
      data := content[Min(pos, |content|)..Min(pos + n, |content|)];
      pos := pos + |data|;
    }

    method Seek(off: nat)
      modifies this`pos
      ensures pos == off
    {
      pos := off;
    }

    method Write(data: Data)
      modifies this
      ensures content == WriteAt(old(content), old(pos), data)
      ensures pos == old(pos) + |data|
    {
      content := WriteAt(content, pos, data);
      pos := pos + |data|;
    }

    /** Writing at the end of the file. */
    method Append(data: Data)
      requires pos == |content|
      modifies this
      ensures content == old(content) + data
      ensures pos == |content|
    {
      Write(data);
    }

    method Truncate(n: nat)
      modifies this`content
      ensures content == Resize(old(content), n)
    {
      content := Resize(content, n);
    }
  }

  /** The restore side's byte source: a read buffer refilled from a generator of chunks. */
  class ChunkStream {
    var buffer: Data
    var pending: seq<Data>

    /** Everything not consumed yet. */
    ghost var rest: Data

    ghost predicate Valid()
      reads this
    {
      rest == buffer + Flatten(pending)
    }

    constructor (chunks: seq<Data>)
      ensures Valid() && rest == Flatten(chunks) && buffer == []
    {
      buffer, pending, rest := [], chunks, Flatten(chunks);
    }

    /** Fetch the next chunk; false when the generator is exhausted. */
    method Refill() returns (more: bool)
      requires Valid()
      modifies this`buffer, this`pending
      ensures Valid()
      ensures more <==> old(pending) != []
      ensures more ==> pending == old(pending)[1..] && buffer == old(buffer) + old(pending)[0]
      ensures !more ==> pending == [] && buffer == old(buffer) == rest
    {
      more := pending != [];
      if more {
        Associative(buffer, pending[0], Flatten(pending[1..]));
        buffer, pending := buffer + pending[0], pending[1..];
      }
    }

    /** Take at most `n` bytes from the buffer alone. */
    method ReadBuffered(n: nat) returns (data: Data)
      requires Valid()
      modifies this`buffer, this`rest
      ensures Valid()
      ensures |data| == Min(n, |old(buffer)|) <= |old(rest)|
      ensures data == old(rest)[..|data|] && rest == old(rest)[|data|..]
      ensures old(rest) == data + rest
      ensures buffer == old(buffer)[|data|..]
    {
      var k := Min(n, |buffer|);
      data := buffer[..k];
      buffer := buffer[k..];
      rest := rest[k..];
    }
  }
}
