/**
 * The record stream of the first rsync engine (freezer/engine/rsync/rsync.py): headers that start with
 * their own length, followed by file contents, read back from a pipe in arbitrary pieces.
 */
module HeaderText {
  import opened Bytes

  const NUL: Byte := 0
  const ZERO: Byte := 48

  predicate IsDigit(b: Byte) {
    ZERO <= b < ZERO + 10
  }

  predicate NulFree(d: Data) {
    forall i :: 0 <= i < |d| ==> d[i] != NUL
  }

  // ---------- decimals ----------

  function Digits(n: nat): (d: Data)
    ensures |d| > 0 && NulFree(d) && forall i :: 0 <= i < |d| ==> IsDigit(d[i])
  {
    if n < 10 then [ZERO + n] else Digits(n / 10) + [ZERO + n % 10]
  }

  function Number(d: Data): nat
    requires forall i :: 0 <= i < |d| ==> IsDigit(d[i])
  {
    if d == [] then 0
    else
      assert IsDigit(d[|d| - 1]);
      10 * Number(d[..|d| - 1]) + (d[|d| - 1] - ZERO)
  }

  lemma {:induction false} NumberOfDigits(n: nat)
    ensures Number(Digits(n)) == n
  {
    if n < 10 {
      assert Number([ZERO + n][..0]) == 0;
    } else {
      NumberOfDigits(n / 10);
      var d := Digits(n / 10);
      assert (d + [ZERO + n % 10])[..|d|] == d;
    }
  }

  /** Ten to the k. */
  function Power(k: nat): (p: nat)
    ensures p > k
  {
    if k == 0 then 1 else 10 * Power(k - 1)
  }

  lemma {:induction false} DigitCountIs(n: nat, k: nat)
    requires k >= 1 && (if k == 1 then 0 else Power(k - 1)) <= n < Power(k)
    ensures |Digits(n)| == k
    decreases k
  {
    if k == 1 {
    } else {
      if k == 2 {
        assert Power(1) == 10 * Power(0);
      }
      assert Power(k) == 10 * Power(k - 1) && Power(k - 1) == 10 * Power(k - 2);
      assert Power(k - 2) <= n / 10 < Power(k - 1);
      DigitCountIs(n / 10, k - 1);
    }
  }

  lemma {:induction false} DigitBounds(n: nat)
    ensures var k := |Digits(n)|; (if k == 1 then 0 else Power(k - 1)) <= n < Power(k)
  {
    if n >= 10 {
      DigitBounds(n / 10);
      var k := |Digits(n)|;
      assert Power(k) == 10 * Power(k - 1);
      assert k > 2 ==> Power(k - 1) == 10 * Power(k - 2);
      assert Power(1) == 10 * Power(0);
    } else {
      assert Power(1) == 10 * Power(0);
    }
  }

  /** Adding the number of its digits carries into at most one more digit, and then no further. */
  lemma CountedDigits(size: nat)
    ensures var a := size + |Digits(size)|;
            var b := size + |Digits(a)|;
            |Digits(a)| == |Digits(size)| || |Digits(b)| == |Digits(a)| == |Digits(size)| + 1
  {
    var k := |Digits(size)|;
    var a := size + k;
    DigitBounds(size);
    assert Power(k + 1) == 10 * Power(k);
    if a < Power(k) {
      DigitCountIs(a, k);
    } else {
      DigitCountIs(a, k + 1);
      DigitCountIs(a + 1, k + 1);
    }
  }

  // ---------- fields separated by NUL ----------

  function Join(fields: seq<Data>): Data {
    if fields == [] then []
    else if |fields| == 1 then fields[0]
    else fields[0] + [NUL] + Join(fields[1..])
  }

  /** The first NUL, or the length. */
  function FirstNul(d: Data): (i: nat)
    ensures i <= |d| && NulFree(d[..i])
    ensures i < |d| ==> d[i] == NUL
  {
    if d == [] || d[0] == NUL then 0
    else
      var i := 1 + FirstNul(d[1..]);
      assert forall k :: 0 < k < i ==> d[..i][k] == d[1..][..i - 1][k - 1];
      i
  }

  function Split(d: Data): (fields: seq<Data>)
    ensures fields != []
    decreases |d|
  {
    var i := FirstNul(d);
    if i == |d| then [d] else [d[..i]] + Split(d[i + 1..])
  }

  lemma {:induction false} FirstNulIs(a: Data, rest: Data)
    requires NulFree(a)
    ensures FirstNul(a + [NUL] + rest) == |a| && FirstNul(a) == |a|
  {
    var d := a + [NUL] + rest;
    var i := FirstNul(d);
    assert forall k :: 0 <= k < |a| ==> d[k] == a[k];
    assert d[|a|] == NUL;
    assert forall k :: 0 <= k < i ==> d[k] == d[..i][k] != NUL;
  }

  lemma SplitFirst(a: Data, rest: Data)
    requires NulFree(a)
    ensures Split(a + [NUL] + rest) == [a] + Split(rest)
  {
    FirstNulIs(a, rest);
    var d := a + [NUL] + rest;
    assert d[..|a|] == a && d[|a| + 1..] == rest;
  }

  /** Splitting what was joined gives the fields back, as long as no field holds a NUL. */
  lemma {:induction false} SplitOfJoin(fields: seq<Data>)
    requires fields != [] && forall k :: 0 <= k < |fields| ==> NulFree(fields[k])
    ensures Split(Join(fields)) == fields
  {
    if |fields| == 1 {
      FirstNulIs(fields[0], []);
    } else {
      SplitOfJoin(fields[1..]);
      SplitFirst(fields[0], Join(fields[1..]));
    }
  }

  lemma JoinFirst(d: Data, i: nat, fields: seq<Data>)
    requires i < |d| && d[i] == NUL && fields != [] && Join(fields) == d[i + 1..]
    ensures Join([d[..i]] + fields) == d
  {
    assert ([d[..i]] + fields)[1..] == fields;
    assert d[..i] + [NUL] + d[i + 1..] == d;
  }

  /** Joining what was split gives the bytes back, whatever they are. */
  lemma {:induction false} JoinOfSplit(d: Data)
    ensures Join(Split(d)) == d
    decreases |d|
  {
    var i := FirstNul(d);
    if i < |d| {
      JoinOfSplit(d[i + 1..]);
      JoinFirst(d, i, Split(d[i + 1..]));
    }
  }

  // ---------- the header ----------

  /** `gen_file_header`: the length counts its own digits, and is put right if that added a digit. */
  function GenFileHeader(path: Data, inode: Data): Data {
    var startOfBlock := [NUL] + path + [NUL];
    var size := |startOfBlock| + |inode|;
    var headerSize := size + |Digits(size)|;
    var header := Digits(headerSize) + startOfBlock + inode;
    if headerSize == |header| then header
    else WithLength(header, |header|)
  }

  /** The header with its first field replaced. */
  function WithLength(header: Data, length: nat): Data {
    Join([Digits(length)] + Split(header)[1..])
  }

  lemma LengthReplaced(n: nat, m: nat, rest: Data)
    ensures Join([Digits(m)] + Split(Digits(n) + [NUL] + rest)[1..]) == Digits(m) + [NUL] + rest
  {
    SplitFirst(Digits(n), rest);
    JoinOfSplit(rest);
    var fields := [Digits(m)] + Split(rest);
    assert ([Digits(n)] + Split(rest))[1..] == Split(rest);
    assert fields[1..] == Split(rest);
  }

  /** The length first written at the head of the header, and its length then. */
  function FirstLength(path: Data, inode: Data): nat {
    |path| + 2 + |inode| + |Digits(|path| + 2 + |inode|)|
  }

  function WrittenLength(path: Data, inode: Data): nat {
    |path| + 2 + |inode| + |Digits(FirstLength(path, inode))|
  }

  lemma HeaderForm(path: Data, inode: Data)
    ensures GenFileHeader(path, inode) == LedBy(Digits(WrittenLength(path, inode)), path, inode)
  {
    var n, m := FirstLength(path, inode), WrittenLength(path, inode);
    var header := Digits(n) + ([NUL] + path + [NUL]) + inode;
    HeaderParts(Digits(n), path, inode);
    assert |header| == m;
    assert GenFileHeader(path, inode) == if n == m then header else WithLength(header, m);
    ReplacedHeader(n, m, path, inode);
  }

  /** The decimal at the head of a header is the header's own length in bytes, carry or not. */
  lemma HeaderCountsItself(path: Data, inode: Data)
    ensures var h := GenFileHeader(path, inode); h == LedBy(Digits(|h|), path, inode)
  {
    HeaderForm(path, inode);
    CountedDigits(|path| + 2 + |inode|);
    HeaderParts(Digits(WrittenLength(path, inode)), path, inode);
    assert |GenFileHeader(path, inode)| == WrittenLength(path, inode);
  }

  function LedBy(digits: Data, path: Data, inode: Data): Data {
    digits + [NUL] + (path + [NUL] + inode)
  }

  lemma ReplacedHeader(n: nat, m: nat, path: Data, inode: Data)
    ensures WithLength(LedBy(Digits(n), path, inode), m) == LedBy(Digits(m), path, inode)
  {
    LengthReplaced(n, m, path + [NUL] + inode);
  }

  lemma HeaderParts(digits: Data, path: Data, inode: Data)
    ensures digits + ([NUL] + path + [NUL]) + inode == LedBy(digits, path, inode)
    ensures |LedBy(digits, path, inode)| == |digits| + |path| + 2 + |inode|
  {
  }
}
