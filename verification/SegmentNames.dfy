/** Names that sort like the numbers in them: segments (freezer/storage/swift.py:103-114) and timestamps. */
module SegmentNames {
  import opened Bytes
  import opened HeaderText

  /** The order of byte strings that object listings and `sorted` use. */
  predicate Before(a: Data, b: Data) {
    b != [] && (a == [] || a[0] < b[0] || (a[0] == b[0] && Before(a[1..], b[1..])))
  }

  /** `%08d`: padded with zeros to eight characters, and longer from 10^8 on. */
  function SegmentName(i: nat): Data {
    Padding(8 - |Digits(i)|) + Digits(i)
  }

  function Padding(n: int): Data {
    if n <= 0 then [] else [ZERO] + Padding(n - 1)
  }

  /** The last `k` decimal digits. */
  function Fixed(n: nat, k: nat): (d: Data)
    ensures |d| == k
  {
    if k == 0 then [] else Fixed(n / 10, k - 1) + [ZERO + n % 10]
  }

  lemma {:induction false} BeforeExtends(a: Data, b: Data, x: Data, y: Data)
    requires |a| == |b| && (Before(a, b) || (a == b && Before(x, y)))
    ensures Before(a + x, b + y)
  {
    if a == [] {
      assert a + x == x && b + y == y;
    } else {
      assert (a + x)[1..] == a[1..] + x && (b + y)[1..] == b[1..] + y;
      if a[0] == b[0] {
        BeforeExtends(a[1..], b[1..], x, y);
      }
    }
  }

  lemma {:induction false} BeforeIsOneWay(a: Data, b: Data)
    requires Before(a, b)
    ensures !Before(b, a) && a != b
  {
    if a != [] && a[0] == b[0] {
      BeforeIsOneWay(a[1..], b[1..]);
    }
  }

  lemma {:induction false} FixedOrder(m: nat, n: nat, k: nat)
    requires m < n < Power(k)
    ensures Before(Fixed(m, k), Fixed(n, k))
  {
    if k > 0 {
      assert Power(k) == 10 * Power(k - 1);
      if m / 10 < n / 10 {
        FixedOrder(m / 10, n / 10, k - 1);
      }
      BeforeExtends(Fixed(m / 10, k - 1), Fixed(n / 10, k - 1), [ZERO + m % 10], [ZERO + n % 10]);
    }
  }

  lemma {:induction false} FixedIsPadded(n: nat, k: nat)
    requires n < Power(k) && k > 0
    ensures |Digits(n)| <= k && Fixed(n, k) == Padding(k - |Digits(n)|) + Digits(n)
  {
    assert Power(k) == 10 * Power(k - 1);
    if k == 1 {
      assert Power(0) == 1;
      assert Fixed(n, 1) == [ZERO + n];
    } else if n < 10 {
      FixedIsPadded(0, k - 1);
      PaddingSnoc(k - 2);
      assert Fixed(n, k) == Fixed(0, k - 1) + [ZERO + n];
    } else {
      FixedIsPadded(n / 10, k - 1);
      assert Digits(n) == Digits(n / 10) + [ZERO + n % 10];
    }
  }

  lemma {:induction false} PaddingSnoc(n: nat)
    ensures Padding(n) + [ZERO] == Padding(n + 1)
  {
    if n > 0 {
      PaddingSnoc(n - 1);
    }
  }

  /** Numbers of equally many digits, such as the timestamps of backups, sort by name as by value. */
  lemma EqualLengthNumbersSort(m: nat, n: nat)
    requires m < n && |Digits(m)| == |Digits(n)|
    ensures Before(Digits(m), Digits(n))
  {
    DigitBounds(m);
    DigitBounds(n);
    FixedIsPadded(m, |Digits(m)|);
    FixedIsPadded(n, |Digits(n)|);
    assert [] + Digits(m) == Digits(m) && [] + Digits(n) == Digits(n);
    FixedOrder(m, n, |Digits(n)|);
  }

  lemma HundredMillion()
    ensures Power(8) == 100000000
  {
    assert Power(2) == 100 && Power(4) == 100 * Power(2) && Power(6) == 100 * Power(4) && Power(8) == 100 * Power(6);
  }

  lemma NamesSort(i: nat, j: nat)
    requires i < j < 100000000
    ensures Before(SegmentName(i), SegmentName(j))
  {
    HundredMillion();
    FixedIsPadded(i, 8);
    FixedIsPadded(j, 8);
    FixedOrder(i, j, 8);
  }

  /** The first nine-digit name sorts before the last eight-digit one. */
  lemma NinthDigitSortsWrong()
    ensures Before(SegmentName(100000000), SegmentName(99999999))
  {
    assert |Digits(100000000)| == 9 && Digits(100000000)[0] == ZERO + 1;
    assert |Digits(99999999)| == 8 && Digits(99999999)[0] == ZERO + 9;
    assert [] + Digits(100000000) == Digits(100000000) && [] + Digits(99999999) == Digits(99999999);
  }

  /** The names of `n` segments sort in the order they were written exactly when n is at most 10^8. */
  lemma NamesSortIff(n: nat)
    ensures (forall i, j :: 0 <= i < j < n ==> Before(SegmentName(i), SegmentName(j))) <==> n <= 100000000
  {
    if n <= 100000000 {
      forall i: nat, j: nat | i < j < n ensures Before(SegmentName(i), SegmentName(j)) {
        NamesSort(i, j);
      }
    } else {
      NinthDigitSortsWrong();
      BeforeIsOneWay(SegmentName(100000000), SegmentName(99999999));
    }
  }

  lemma {:induction false} NumberOfPadded(n: int, d: Data)
    requires forall i :: 0 <= i < |d| ==> IsDigit(d[i])
    ensures (forall i :: 0 <= i < |Padding(n) + d| ==> IsDigit((Padding(n) + d)[i]))
    ensures Number(Padding(n) + d) == Number(d)
  {
    if n <= 0 {
      assert Padding(n) + d == d;
    } else {
      NumberOfPadded(n - 1, d);
      var rest := Padding(n - 1) + d;
      assert Padding(n) + d == [ZERO] + rest;
      LeadingZero(rest);
    }
  }

  lemma {:induction false} LeadingZero(d: Data)
    requires forall i :: 0 <= i < |d| ==> IsDigit(d[i])
    ensures Number([ZERO] + d) == Number(d)
  {
    if d == [] {
      assert ([ZERO] + d)[..0] == [];
    } else {
      LeadingZero(d[..|d| - 1]);
      assert ([ZERO] + d)[..|d|] == [ZERO] + d[..|d| - 1];
    }
  }

  lemma NumberOfName(i: nat)
    ensures forall k :: 0 <= k < |SegmentName(i)| ==> IsDigit(SegmentName(i)[k])
    ensures Number(SegmentName(i)) == i
  {
    NumberOfPadded(8 - |Digits(i)|, Digits(i));
    NumberOfDigits(i);
  }

  lemma NamesDiffer(i: nat, j: nat)
    requires i != j
    ensures SegmentName(i) != SegmentName(j)
  {
    NumberOfName(i);
    NumberOfName(j);
  }

  // ---------- upload, and download by name order ----------

  /** A container's segments, by the part of their name below the backup's segments path. */
  type Objects = map<Data, Data>

  class SwiftStorage {
    var objects: Objects

    constructor ()
      ensures objects == map[]
    {
      objects := map[];
    }

    /** One object a message, named by the message's index. */
    method WriteBackup(messages: seq<Data>)
      requires objects == map[]
      modifies this
      ensures Holds(objects, messages)
    {
      var i := 0;
      while i < |messages|
        invariant 0 <= i <= |messages|
        invariant Holds(objects, messages[..i])
      {
        AddSegment(objects, messages, i);
        objects := objects[SegmentName(i) := messages[i]];
        i := i + 1;
      }
      assert messages[..i] == messages;
    }
  }

  /** Exactly the messages are stored, each under its own name. */
  ghost predicate Holds(objects: Objects, messages: seq<Data>) {
    && (forall i :: 0 <= i < |messages| ==> SegmentName(i) in objects && objects[SegmentName(i)] == messages[i])
    && (forall name :: name in objects ==> exists i :: 0 <= i < |messages| && name == SegmentName(i))
  }

  lemma AddSegment(objects: Objects, messages: seq<Data>, i: nat)
    requires i < |messages| && Holds(objects, messages[..i])
    ensures Holds(objects[SegmentName(i) := messages[i]], messages[..i + 1])
  {
    forall j: nat | j < i ensures SegmentName(j) != SegmentName(i) {
      NamesDiffer(j, i);
    }
    var more := objects[SegmentName(i) := messages[i]];
    forall name | name in more ensures exists j :: 0 <= j < i + 1 && name == SegmentName(j) {
      if name != SegmentName(i) {
        var j :| 0 <= j < i && name == SegmentName(j);
      }
    }
  }

  /** A listing of the container in name order. */
  ghost predicate Sorted(names: seq<Data>, objects: Objects) {
    && (forall i, j :: 0 <= i < j < |names| ==> Before(names[i], names[j]))
    && (forall name :: name in names <==> name in objects)
  }

  function Concatenated(names: seq<Data>, objects: Objects): Data
    requires forall k :: 0 <= k < |names| ==> names[k] in objects
  {
    if names == [] then []
    else Concatenated(names[..|names| - 1], objects) + objects[names[|names| - 1]]
  }

  lemma {:induction false} SortedNameIs(names: seq<Data>, objects: Objects, messages: seq<Data>, k: nat)
    requires Holds(objects, messages) && Sorted(names, objects) && |messages| <= 100000000
    requires k < |names| && k < |messages|
    ensures names[k] == SegmentName(k)
  {
    forall i | 0 <= i < k ensures names[i] == SegmentName(i) {
      SortedNameIs(names, objects, messages, i);
    }
    assert names[k] in names;
    var f :| 0 <= f < |messages| && names[k] == SegmentName(f);
    if f < k {
      BeforeIsOneWay(names[f], names[k]);
    } else if f > k {
      var p := PositionOfName(names, objects, messages, k);
      if p < k {
        NamesDiffer(p, k);
      } else if p == k {
        NamesDiffer(f, k);
      } else {
        NamesSort(k, f);
        BeforeIsOneWay(SegmentName(k), SegmentName(f));
      }
    }
  }

  lemma PositionOfName(names: seq<Data>, objects: Objects, messages: seq<Data>, k: nat) returns (p: nat)
    requires Holds(objects, messages) && Sorted(names, objects) && k < |messages|
    ensures p < |names| && names[p] == SegmentName(k)
  {
    assert SegmentName(k) in names;
    p :| 0 <= p < |names| && names[p] == SegmentName(k);
  }

  lemma AsManyNames(names: seq<Data>, objects: Objects, messages: seq<Data>)
    requires Holds(objects, messages) && Sorted(names, objects) && |messages| <= 100000000
    ensures |names| == |messages|
  {
    if |names| < |messages| {
      var p := PositionOfName(names, objects, messages, |names|);
      SortedNameIs(names, objects, messages, p);
      NamesDiffer(p, |names|);
    } else if |names| > |messages| {
      var n := |messages|;
      assert names[n] in names;
      var f :| 0 <= f < n && names[n] == SegmentName(f);
      SortedNameIs(names, objects, messages, f);
      BeforeIsOneWay(names[f], names[n]);
    }
  }

  lemma {:induction false} ConcatenatedIs(names: seq<Data>, objects: Objects, messages: seq<Data>)
    requires |names| == |messages|
    requires forall k :: 0 <= k < |names| ==> names[k] in objects && objects[names[k]] == messages[k]
    ensures Concatenated(names, objects) == Flatten(messages)
  {
    if names == [] {
    } else {
      var n := |names| - 1;
      ConcatenatedIs(names[..n], objects, messages[..n]);
      FlattenSnoc(messages[..n], messages[n]);
      assert messages[..n] + [messages[n]] == messages;
    }
  }

  /** Up to 10^8 segments, joining the objects by name gives the stream that was written. */
  lemma ManifestIsStream(names: seq<Data>, objects: Objects, messages: seq<Data>)
    requires Holds(objects, messages) && Sorted(names, objects) && |messages| <= 100000000
    ensures (forall k :: 0 <= k < |names| ==> names[k] in objects) && Concatenated(names, objects) == Flatten(messages)
  {
    AsManyNames(names, objects, messages);
    forall k | 0 <= k < |names| ensures names[k] in objects && objects[names[k]] == messages[k] {
      SortedNameIs(names, objects, messages, k);
    }
    ConcatenatedIs(names, objects, messages);
  }
}
