/** The names that a sorted listing orders, `level_timestamp` (freezer/storage/ssh.py:135-141). */
module SortedNames {
  import opened Bytes
  import opened HeaderText
  import opened SegmentNames
  import opened Planner
  import opened ListingOrder

  const UNDERSCORE: Byte := 95

  function NameOf<D>(b: Backup<D>): Data
    requires b.timestamp >= 0
  {
    Digits(b.level) + [UNDERSCORE] + Digits(b.timestamp)
  }

  ghost predicate SortedByName<D>(listing: Chain<D>)
    requires forall i :: 0 <= i < |listing| ==> listing[i].timestamp >= 0
  {
    forall i, j :: 0 <= i < j < |listing| ==> Before(NameOf(listing[i]), NameOf(listing[j]))
  }

  ghost predicate StampsCount<D>(c: Chain<D>) {
    forall b :: b in c ==> b.timestamp >= 0
  }

  /** Of every level, the decimal of the newest timestamp sorts last. */
  ghost predicate NewestSortsLast<D>(c: Chain<D>)
    requires StampsCount(c)
  {
    forall a, b | a in c && b in c && Newest(c, b) && a.level == b.level && a.timestamp < b.timestamp ::
      Before(Digits(a.timestamp), Digits(b.timestamp))
  }

  ghost predicate Newest<D>(c: Chain<D>, b: Backup<D>) {
    b in c && forall a :: a in c && a.level == b.level ==> a.timestamp <= b.timestamp
  }

  lemma {:induction false} BeforeStrips(prefix: Data, x: Data, y: Data)
    ensures Before(prefix + x, prefix + y) <==> Before(x, y)
  {
    if prefix == [] {
      assert prefix + x == x && prefix + y == y;
    } else {
      assert (prefix + x)[1..] == prefix[1..] + x && (prefix + y)[1..] == prefix[1..] + y;
      BeforeStrips(prefix[1..], x, y);
    }
  }

  /** Within one level, names sort as the decimals of the timestamps. */
  lemma SameLevelByStamp<D>(a: Backup<D>, b: Backup<D>)
    requires a.level == b.level && a.timestamp >= 0 && b.timestamp >= 0
    ensures Before(NameOf(a), NameOf(b)) <==> Before(Digits(a.timestamp), Digits(b.timestamp))
  {
    BeforeStrips(Digits(a.level) + [UNDERSCORE], Digits(a.timestamp), Digits(b.timestamp));
  }

  lemma NewestOfLevel<D>(z: int, c: Chain<D>, a: Backup<D>) returns (b: Backup<D>)
    requires ChainValid(z, c) && a in c
    ensures Newest(c, b) && b.level == a.level
  {
    ChainEntryIsNewest(z, c, a);
    b := Increments(c)[a.level];
    var i := EntryIsLast(c, a.level);
    forall x | x in c && x.level == a.level ensures x.timestamp <= b.timestamp {
      ChainEntryIsNewest(z, c, x);
    }
  }

  /** The newest backup of a level is one backup. */
  lemma OneNewest<D>(z: int, c: Chain<D>, a: Backup<D>, b: Backup<D>)
    requires ChainValid(z, c) && a in c && b in c && a.timestamp == b.timestamp
    ensures a == b
  {
    var i :| 0 <= i < |c| && c[i] == a;
    var j :| 0 <= j < |c| && c[j] == b;
    if i < j {
      ChainOrdered(z, c, i, j);
    } else if j < i {
      ChainOrdered(z, c, j, i);
    }
  }

  lemma SortedThenListedLast<D>(z: int, c: Chain<D>, listing: Chain<D>, i: nat)
    requires ChainValid(z, c) && SameBackups(listing, c) && StampsCount(c) && StampsCount(listing)
    requires SortedByName(listing) && NewestSortsLast(c) && i < |listing| && LastOfLevel(listing, i)
    ensures Newest(c, listing[i])
  {
    var a := listing[i];
    assert a in listing;
    var b := NewestOfLevel(z, c, a);
    assert b in listing;
    var n :| 0 <= n < |listing| && listing[n] == b;
    if a.timestamp < b.timestamp {
      assert n < i && Before(NameOf(b), NameOf(a));
      SameLevelByStamp(a, b);
      BeforeIsOneWay(NameOf(a), NameOf(b));
    }
  }

  lemma ListedLastThenSorted<D>(z: int, c: Chain<D>, listing: Chain<D>, a: Backup<D>, b: Backup<D>)
    requires ChainValid(z, c) && SameBackups(listing, c) && StampsCount(c) && StampsCount(listing)
    requires SortedByName(listing) && NewestListedLast(listing)
    requires a in c && Newest(c, b) && a.level == b.level && a.timestamp < b.timestamp
    ensures Before(Digits(a.timestamp), Digits(b.timestamp))
  {
    assert a in listing && b in listing;
    var p :| 0 <= p < |listing| && listing[p] == a;
    var q :| 0 <= q < |listing| && listing[q] == b;
    LevelListed(listing, a.level);
    var r := EntryIsLast(listing, a.level);
    assert listing[r] in listing && listing[q].timestamp <= listing[r].timestamp;
    OneNewest(z, c, listing[r], b);
    assert r == q && p < q;
    SameLevelByStamp(a, b);
  }

  /** A listing sorted by name serves a chain exactly when on each level the newest decimal sorts last. */
  lemma SortedListingServesIff<D>(z: int, c: Chain<D>, listing: Chain<D>)
    requires ChainValid(z, c) && SameBackups(listing, c) && StampsCount(c) && StampsCount(listing)
    requires SortedByName(listing)
    ensures Increments(listing) == Increments(c) <==> NewestSortsLast(c)
  {
    ListingServesIff(z, c, listing);
    if NewestListedLast(listing) {
      forall a, b | a in c && b in c && Newest(c, b) && a.level == b.level && a.timestamp < b.timestamp
        ensures Before(Digits(a.timestamp), Digits(b.timestamp))
      {
        ListedLastThenSorted(z, c, listing, a, b);
      }
    } else if NewestSortsLast(c) {
      forall i, j | 0 <= i < |listing| && 0 <= j < |listing| && LastOfLevel(listing, i)
                    && listing[j].level == listing[i].level
        ensures listing[j].timestamp <= listing[i].timestamp
      {
        SortedThenListedLast(z, c, listing, i);
        assert listing[j] in listing;
      }
    }
  }

  // ---------- when decimals sort as numbers ----------

  /** A number without its last `d` digits. */
  function Leading(n: nat, d: nat): nat
    decreases d
  {
    if d == 0 then n else Leading(n / 10, d - 1)
  }

  lemma {:induction false} LeadingDigits(n: nat, d: nat) returns (rest: Data)
    requires d < |Digits(n)|
    ensures |rest| == d && Digits(n) == Digits(Leading(n, d)) + rest
    decreases d
  {
    if d == 0 {
      rest := [];
      assert Digits(n) + [] == Digits(n);
    } else {
      rest := LeadingDigits(n / 10, d - 1);
      Associative(Digits(Leading(n, d)), rest, [ZERO + n % 10]);
      rest := rest + [ZERO + n % 10];
    }
  }

  lemma {:induction false} AtMostLeadingIff(m: nat, n: nat, d: nat)
    ensures m * Power(d) <= n <==> m <= Leading(n, d)
    decreases d
  {
    if d == 0 {
      assert Power(0) == 1;
    } else {
      AtMostLeadingIff(m, n / 10, d - 1);
      var k := m * Power(d - 1);
      assert Power(d) == 10 * Power(d - 1);
      assert m * Power(d) == 10 * k;
    }
  }

  /** Against a decimal with more behind it, one of as many digits sorts by value. */
  lemma SortsByLeading(m: nat, q: nat, rest: Data)
    requires |Digits(m)| == |Digits(q)|
    ensures Before(Digits(m), Digits(q) + rest) <==> m < q || (m == q && rest != [])
  {
    assert Digits(m) + [] == Digits(m);
    if m < q {
      EqualLengthNumbersSort(m, q);
      BeforeExtends(Digits(m), Digits(q), [], rest);
    } else if m == q {
      BeforeStrips(Digits(m), [], rest);
    } else {
      EqualLengthNumbersSort(q, m);
      BeforeExtends(Digits(q), Digits(m), rest, []);
      BeforeIsOneWay(Digits(q) + rest, Digits(m));
    }
  }

  /** A smaller number sorts first exactly when padding it with zeros to equal length does not exceed the other. */
  lemma DecimalsSortIff(m: nat, n: nat)
    requires m < n
    ensures |Digits(m)| <= |Digits(n)|
    ensures Before(Digits(m), Digits(n)) <==> m * Power(|Digits(n)| - |Digits(m)|) <= n
  {
    FewerDigits(m, n);
    var d := |Digits(n)| - |Digits(m)|;
    var rest := LeadingDigits(n, d);
    SortsByLeading(m, Leading(n, d), rest);
    AtMostLeadingIff(m, n, d);
  }

  lemma FewerDigits(m: nat, n: nat)
    requires m < n
    ensures |Digits(m)| <= |Digits(n)|
  {
    DigitBounds(m);
    DigitBounds(n);
    PowerGrows(|Digits(n)|, Max(|Digits(n)|, |Digits(m)| - 1));
  }

  lemma {:induction false} PowerGrows(i: nat, j: nat)
    requires i <= j
    ensures Power(i) <= Power(j)
  {
    if i < j {
      PowerGrows(i, j - 1);
    }
  }
}
