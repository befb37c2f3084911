/** Plain and position-weighted byte sums: the quantities both weak checksums are built from. */
module ByteSums {
  import opened Bytes

  function Sum(d: Data): (s: nat) {
    if d == [] then 0 else Sum(d[..|d| - 1]) + d[|d| - 1]
  }

  /** The sum of `(|d| - i) * d[i]`. */
  function Weighted(d: Data): (s: nat) {
    if d == [] then 0 else Weighted(d[..|d| - 1]) + Sum(d)
  }

  lemma {:induction false} SumCons(x: Byte, d: Data)
    ensures Sum([x] + d) == x + Sum(d)
  {
    if d == [] {
      assert ([x] + d)[..0] == [];
    } else {
      var p := d[..|d| - 1];
      SumCons(x, p);
      assert ([x] + d)[..|d|] == [x] + p;
    }
  }

  lemma {:induction false} WeightedCons(x: Byte, d: Data)
    ensures Weighted([x] + d) == Times(|d| + 1, x) + Weighted(d)
  {
    SumCons(x, d);
    if d == [] {
      assert ([x] + d)[..0] == [];
    } else {
      var p := d[..|d| - 1];
      WeightedCons(x, p);
      assert ([x] + d)[..|d|] == [x] + p;
    }
  }

  /** The window after dropping its oldest byte and taking in a new one. */
  function Slide(w: Data, added: Byte): (r: Data)
    requires w != []
  {
    w[1..] + [added]
  }

  lemma SlideSums(w: Data, added: Byte)
    requires w != []
    ensures Sum(Slide(w, added)) == Sum(w) - w[0] + added
    ensures Weighted(Slide(w, added)) == Weighted(w) - Times(|w|, w[0]) + Sum(Slide(w, added))
  {
    assert w == [w[0]] + w[1..];
    SumCons(w[0], w[1..]);
    WeightedCons(w[0], w[1..]);
    assert Slide(w, added)[..|w| - 1] == w[1..];
  }

  /** The window after a whole sequence of new bytes. */
  function SlideAll(w: Data, bytes: Data): (r: Data)
    requires w != []
    ensures |r| == |w|
  {
    if bytes == [] then w else Slide(SlideAll(w, bytes[..|bytes| - 1]), bytes[|bytes| - 1])
  }

  lemma {:induction false} SlideAllIsSuffix(w: Data, bytes: Data)
    requires w != []
    ensures SlideAll(w, bytes) == (w + bytes)[|bytes|..]
  {
    if bytes != [] {
      var p := bytes[..|bytes| - 1];
      SlideAllIsSuffix(w, p);
      assert bytes == p + [bytes[|p|]];
      assert (w + bytes)[|bytes|..] == Slide((w + p)[|p|..], bytes[|p|]);
    } else {
      assert w + bytes == w;
    }
  }
}
