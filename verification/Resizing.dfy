/** Cutting a stream of chunks into pieces of requested sizes (freezer/utils/utils.py:250-303). */
module Resizing {
  import opened Bytes

  /** What a read of `size` bytes gives of the bytes that are left: None once nothing is left. */
  function Piece(left: Data, size: nat): Option<Data> {
    if left == [] then None else Some(left[..Min(size, |left|)])
  }

  function After(left: Data, size: nat): Data {
    left[Min(size, |left|)..]
  }

  class ReSizeStream {
    /** The chunks the wrapped iterator has not given yet. */
    var stream: seq<Data>
    const length: nat
    var chunkSize: nat
    var reminder: Data
    var transmitted: nat

    constructor (chunks: seq<Data>, length: nat, chunkSize: nat)
      ensures Left() == Flatten(chunks) && transmitted == 0
      ensures this.length == length && this.chunkSize == chunkSize
    {
      stream, reminder, transmitted := chunks, [], 0;
      this.length, this.chunkSize := length, chunkSize;
    }

    ghost function Left(): Data
      reads this
    {
      reminder + Flatten(stream)
    }

    method Next() returns (piece: Option<Data>)
      requires chunkSize > 0
      modifies this
      ensures piece == Piece(old(Left()), chunkSize) && Left() == After(old(Left()), chunkSize)
      ensures chunkSize == old(chunkSize)
      ensures transmitted == old(transmitted) + if piece.Some? then |piece.value| else 0
    {
      ghost var left := Left();
      if |reminder| > chunkSize {
        piece := Some(reminder[..chunkSize]);
        Cut(reminder, Flatten(stream), chunkSize);
        reminder := reminder[chunkSize..];
        transmitted := transmitted + |piece.value|;
        return;
      }
      var stop := false;
      while !stop && |reminder| < chunkSize
        invariant Left() == left && chunkSize == old(chunkSize) && transmitted == old(transmitted)
        invariant stop ==> stream == [] && |reminder| < chunkSize
        decreases |stream|, if stop then 0 else 1
      {
        if stream == [] {
          stop := true;
        } else {
          Associative(reminder, stream[0], Flatten(stream[1..]));
          reminder, stream := reminder + stream[0], stream[1..];
        }
      }
      Cut(reminder, Flatten(stream), Min(chunkSize, |reminder|));
      if stop {
        if |reminder| == 0 {
          return None;
        }
        piece := Some(reminder);
        reminder := [];
      } else {
        piece := Some(reminder[..chunkSize]);
        reminder := reminder[chunkSize..];
      }
      transmitted := transmitted + |piece.value|;
    }

    /** A read changes the size asked for, and keeps it for later. */
    method Read(size: nat) returns (piece: Option<Data>)
      requires size > 0
      modifies this
      ensures piece == Piece(old(Left()), size) && Left() == After(old(Left()), size) && chunkSize == size
      ensures transmitted == old(transmitted) + if piece.Some? then |piece.value| else 0
    {
      chunkSize := size;
      piece := Next();
    }
  }

  lemma Cut(a: Data, b: Data, n: nat)
    requires n <= |a|
    ensures (a + b)[..n] == a[..n] && (a + b)[n..] == a[n..] + b
  {
  }

  // ---------- any number of reads ----------

  /** The pieces that reads of these sizes give, without the empty-handed reads. */
  function Pieces(left: Data, sizes: seq<nat>): seq<Data> {
    if sizes == [] then []
    else (if left == [] then [] else [Piece(left, sizes[0]).value]) + Pieces(After(left, sizes[0]), sizes[1..])
  }

  function LeftAfter(left: Data, sizes: seq<nat>): Data {
    if sizes == [] then left else LeftAfter(After(left, sizes[0]), sizes[1..])
  }

  /** The pieces and what is left make up the stream. */
  lemma {:induction false} PiecesConserve(left: Data, sizes: seq<nat>)
    ensures Flatten(Pieces(left, sizes)) + LeftAfter(left, sizes) == left
    decreases |sizes|
  {
    if sizes == [] {
      assert Flatten(Pieces(left, sizes)) + left == left;
    } else {
      var after, rest := After(left, sizes[0]), sizes[1..];
      PiecesConserve(after, rest);
      if left == [] {
        assert [] + Pieces(after, rest) == Pieces(after, rest);
      } else {
        var p := Piece(left, sizes[0]).value;
        assert ([p] + Pieces(after, rest))[1..] == Pieces(after, rest);
        Associative(p, Flatten(Pieces(after, rest)), LeftAfter(after, rest));
        assert p + after == left;
      }
    }
  }

  /** A read after `sizes` gives None exactly when the pieces before it were the whole stream. */
  lemma NoneAfterAllBytes(left: Data, sizes: seq<nat>, size: nat)
    ensures Piece(LeftAfter(left, sizes), size).None? <==> Flatten(Pieces(left, sizes)) == left
  {
    PiecesConserve(left, sizes);
    var got, rest := Flatten(Pieces(left, sizes)), LeftAfter(left, sizes);
    assert |got| + |rest| == |left|;
    assert got + [] == got;
  }

  /** Every piece but the last has the size that was asked for, and no piece is empty. */
  lemma {:induction false} PiecesHaveSizes(left: Data, sizes: seq<nat>, k: nat)
    requires (forall i :: 0 <= i < |sizes| ==> sizes[i] > 0) && k < |Pieces(left, sizes)|
    ensures k < |sizes| && 0 < |Pieces(left, sizes)[k]| <= sizes[k]
    ensures k + 1 < |Pieces(left, sizes)| || LeftAfter(left, sizes) != [] ==> |Pieces(left, sizes)[k]| == sizes[k]
    decreases |sizes|
  {
    var after, rest := After(left, sizes[0]), sizes[1..];
    if left == [] {
      NothingComesOfNothing(rest);
    } else if after == [] {
      NothingComesOfNothing(rest);
    } else if k > 0 {
      PiecesHaveSizes(after, rest, k - 1);
    }
  }

  lemma {:induction false} NothingComesOfNothing(sizes: seq<nat>)
    ensures Pieces([], sizes) == [] && LeftAfter([], sizes) == []
  {
    if sizes != [] {
      NothingComesOfNothing(sizes[1..]);
    }
  }
}
