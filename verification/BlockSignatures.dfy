/** Blocks of a file, their signatures, and the scan for changed ones (freezer/engine/rsyncv2/pyrsync.py). */
module BlockSignatures {
  import opened Bytes
  import opened Files
  import Adler

  /** The strong digest; any function will do. */
  type Hash = Data -> string

  datatype Signature = Signature(weak: seq<int>, strong: seq<string>)

  /** The file offset of block `i`, the product `i * bs`. */
  function Offset(i: nat, bs: nat): (o: nat)
    ensures o == Times(i, bs)
  {
    TimesNonNegative(i, bs);
    Times(i, bs)
  }

  /** Block `i`: a slice of `bs` bytes, shorter or empty at the end of the data. */
  function BlockAt(data: Data, bs: nat, i: nat): Data {
    data[Min(Offset(i, bs), |data|)..Min(Offset(i, bs) + bs, |data|)]
  }

  /** The number of reads of `bs` bytes that return something. */
  function BlockCount(len: nat, bs: nat): nat
    requires bs > 0
  {
    if len == 0 then 0 else 1 + BlockCount(if len <= bs then 0 else len - bs, bs)
  }

  /** Block `i` is non-empty exactly when it lies below the block count. */
  lemma {:induction false} BlockBelowCount(len: nat, bs: nat, i: nat)
    requires bs > 0
    ensures i < BlockCount(len, bs) <==> Offset(i, bs) < len
  {
    TimesNonNegative(i, bs);
    if i > 0 && len > 0 {
      TimesNonNegative(i - 1, bs);
      BlockBelowCount(if len <= bs then 0 else len - bs, bs, i - 1);
    }
  }

  ghost function SignatureOf(data: Data, bs: nat, h: Hash): Signature
    requires bs > 0
  {
    var n := BlockCount(|data|, bs);
    Signature(seq(n, i requires 0 <= i < n => Adler.Adler32Fast(BlockAt(data, bs, i))),
              seq(n, i requires 0 <= i < n => h(BlockAt(data, bs, i))))
  }

  lemma NextDigests(data: Data, bs: nat, h: Hash, k: nat)
    requires bs > 0 && k < BlockCount(|data|, bs)
    ensures var s := SignatureOf(data, bs, h);
            && s.weak[..k + 1] == s.weak[..k] + [Adler.Adler32Fast(BlockAt(data, bs, k))]
            && s.strong[..k + 1] == s.strong[..k] + [h(BlockAt(data, bs, k))]
  {
  }

  /** The signature list of a file, read block by block. */
  method BlockChecksums(f: OpenFile, bs: nat, h: Hash) returns (s: Signature)
    requires bs > 0 && f.pos == 0
    modifies f`pos
    ensures s == SignatureOf(f.content, bs, h)
  {
    var weak: seq<int>, strong: seq<string> := [], [];
    ghost var data, full := f.content, SignatureOf(f.content, bs, h);
    var block := f.Read(bs);
    while block != []
      invariant f.content == data
      invariant |weak| == |strong| <= |full.weak|
      invariant f.pos == Min(Offset(|weak|, bs) + bs, |data|)
      invariant block == BlockAt(data, bs, |weak|)
      invariant weak == full.weak[..|weak|] && strong == full.strong[..|strong|]
      decreases |data| - Offset(|weak|, bs)
    {
      BlockBelowCount(|data|, bs, |weak|);
      NextDigests(data, bs, h, |weak|);
      weak := weak + [Adler.Adler32Fast(block)];
      strong := strong + [h(block)];
      block := f.Read(bs);
    }
    BlockBelowCount(|data|, bs, |weak|);
    s := Signature(weak, strong);
  }

  /** The block agrees with position `i` of the old signature; a missing entry never agrees. */
  predicate Matches(sig: Signature, i: nat, block: Data, h: Hash) {
    && i < |sig.weak| && Adler.Adler32Fast(block) == sig.weak[i]
    && i < |sig.strong| && h(block) == sig.strong[i]
  }

  datatype Item = Unchanged(index: nat) | Changed(block: Data)

  ghost function ItemAt(data: Data, sig: Signature, bs: nat, h: Hash, i: nat): Item {
    if Matches(sig, i, BlockAt(data, bs, i), h) then Unchanged(i) else Changed(BlockAt(data, bs, i))
  }

  /** Compare every block with the old signature at the same position. */
  method RsyncDeltaFast(f: OpenFile, sig: Signature, bs: nat, h: Hash) returns (items: seq<Item>)
    requires bs > 0 && f.pos == 0
    modifies f`pos
    ensures |items| == BlockCount(|f.content|, bs)
    ensures forall i :: 0 <= i < |items| ==> items[i] == ItemAt(f.content, sig, bs, h, i)
  {
    items := [];
    ghost var data := f.content;
    var block := f.Read(bs);
    while block != []
      invariant f.content == data && |items| <= BlockCount(|data|, bs)
      invariant f.pos == Min(Offset(|items|, bs) + bs, |data|)
      invariant block == BlockAt(data, bs, |items|)
      invariant forall i :: 0 <= i < |items| ==> items[i] == ItemAt(data, sig, bs, h, i)
      decreases |data| - Offset(|items|, bs)
    {
      BlockBelowCount(|data|, bs, |items|);
      items := items + [if Matches(sig, |items|, block, h) then Unchanged(|items|) else Changed(block)];
      block := f.Read(bs);
    }
    BlockBelowCount(|data|, bs, |items|);
  }
}
