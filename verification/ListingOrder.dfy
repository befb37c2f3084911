/** Directory listings: the order of the names decides which backup of a level is used. */
module ListingOrder {
  import opened Bytes
  import opened Planner

  /** The listing names exactly the chain's backups, each once. */
  ghost predicate SameBackups<D>(listing: Chain<D>, c: Chain<D>) {
    && (forall i, j :: 0 <= i < j < |listing| ==> listing[i] != listing[j])
    && (forall b | b in listing :: b in c) && (forall b | b in c :: b in listing)
  }

  /** Of every level, the backup listed last is no older than any other. */
  ghost predicate NewestListedLast<D>(listing: Chain<D>) {
    forall i, j | 0 <= i < |listing| && 0 <= j < |listing| && LastOfLevel(listing, i)
                  && listing[j].level == listing[i].level :: listing[j].timestamp <= listing[i].timestamp
  }

  /** A level is in the dictionary exactly when some listed backup has it. */
  lemma LevelListed<D>(listing: Chain<D>, l: nat)
    ensures l in Increments(listing) <==> exists b | b in listing :: b.level == l
  {
    IncrementsAreLast(listing, l);
    if l in Increments(listing) {
      var i :| 0 <= i < |listing| && listing[i].level == l;
      assert listing[i] in listing;
    }
  }

  /** The entry of a level is a listed backup, the last one of its level. */
  lemma EntryIsLast<D>(listing: Chain<D>, l: nat) returns (i: nat)
    requires l in Increments(listing)
    ensures i < |listing| && listing[i] == Increments(listing)[l] && listing[i].level == l && LastOfLevel(listing, i)
  {
    IncrementsAreLast(listing, l);
    i :| 0 <= i < |listing| && listing[i] == Increments(listing)[l] && listing[i].level == l && LastOfLevel(listing, i);
  }

  lemma LastIsEntry<D>(listing: Chain<D>, i: nat)
    requires i < |listing| && LastOfLevel(listing, i)
    ensures listing[i].level in Increments(listing) && Increments(listing)[listing[i].level] == listing[i]
  {
    LevelListed(listing, listing[i].level);
    assert listing[i] in listing;
    var j := EntryIsLast(listing, listing[i].level);
  }

  /** The chain's own order makes the newest backup of a level its entry. */
  lemma ChainEntryIsNewest<D>(z: int, c: Chain<D>, b: Backup<D>)
    requires ChainValid(z, c) && b in c
    ensures b.level in Increments(c) && Increments(c)[b.level] in c
    ensures b.timestamp <= Increments(c)[b.level].timestamp
    ensures b.timestamp == Increments(c)[b.level].timestamp ==> b == Increments(c)[b.level]
  {
    LevelListed(c, b.level);
    var i := EntryIsLast(c, b.level);
    var j :| 0 <= j < |c| && c[j] == b;
    if j < i {
      ChainOrdered(z, c, j, i);
    }
  }

  lemma EntryAgreesIff<D>(z: int, c: Chain<D>, listing: Chain<D>, l: nat)
    requires ChainValid(z, c) && SameBackups(listing, c)
    ensures l in Increments(listing) <==> l in Increments(c)
    ensures l in Increments(c) ==>
              (Increments(listing)[l] == Increments(c)[l] <==>
               forall b | b in listing && b.level == l :: b.timestamp <= Increments(listing)[l].timestamp)
  {
    LevelListed(listing, l);
    LevelListed(c, l);
    if l in Increments(c) {
      var i := EntryIsLast(listing, l);
      var k := EntryIsLast(c, l);
      assert listing[i] in listing && c[k] in c;
      forall b | b in listing && b.level == l ensures b.timestamp <= c[k].timestamp {
        ChainEntryIsNewest(z, c, b);
      }
      ChainEntryIsNewest(z, c, listing[i]);
    }
  }

  /**
   * A listing of a chain gives the dictionary of the order in which the backups were made exactly when it
   * lists the newest backup of every level last.
   */
  lemma ListingServesIff<D>(z: int, c: Chain<D>, listing: Chain<D>)
    requires ChainValid(z, c) && SameBackups(listing, c)
    ensures Increments(listing) == Increments(c) <==> NewestListedLast(listing)
  {
    forall l: nat
      ensures l in Increments(listing) <==> l in Increments(c)
      ensures l in Increments(c) ==>
                (Increments(listing)[l] == Increments(c)[l] <==>
                 forall b | b in listing && b.level == l :: b.timestamp <= Increments(listing)[l].timestamp)
    {
      EntryAgreesIff(z, c, listing, l);
    }
    if NewestListedLast(listing) {
      forall l: nat | l in Increments(c) ensures Increments(listing)[l] == Increments(c)[l] {
        var i := EntryIsLast(listing, l);
      }
    } else {
      var i, j :| 0 <= i < |listing| && 0 <= j < |listing| && LastOfLevel(listing, i)
                  && listing[j].level == listing[i].level && listing[j].timestamp > listing[i].timestamp;
      LastIsEntry(listing, i);
      assert listing[j] in listing;
      assert Increments(listing)[listing[i].level] != Increments(c)[listing[i].level];
    }
  }

  // ---------- which chains depend on the order ----------

  ghost predicate MadeOnce<D>(c: Chain<D>) {
    forall i, j :: 0 <= i < j < |c| ==> c[i].level != c[j].level
  }

  /** The chain with one backup listed at the end. */
  function MovedLast<D>(c: Chain<D>, i: nat): Chain<D>
    requires i < |c|
  {
    c[..i] + c[i + 1..] + [c[i]]
  }

  lemma MovedIsSame<D>(z: int, c: Chain<D>, i: nat)
    requires ChainValid(z, c) && i < |c|
    ensures SameBackups(MovedLast(c, i), c)
  {
    var r := MovedLast(c, i);
    forall a, b | 0 <= a < b < |r| ensures r[a] != r[b] {
      var p, q := if a < i then a else a + 1, if b == |r| - 1 then i else if b < i then b else b + 1;
      assert r[a] == c[p] && r[b] == c[q];
      if p < q {
        ChainOrdered(z, c, p, q);
      } else {
        ChainOrdered(z, c, q, p);
      }
    }
    forall b | b in c ensures b in r {
      var j :| 0 <= j < |c| && c[j] == b;
      assert r[if j < i then j else if j == i then |r| - 1 else j - 1] == b;
    }
  }

  /** Any backup of a level made again can be brought back by the order of the listing. */
  lemma OlderCanBeListedLast<D>(z: int, c: Chain<D>, i: nat, j: nat)
    requires ChainValid(z, c) && i < j < |c| && c[i].level == c[j].level
    ensures var listing := MovedLast(c, i);
            && SameBackups(listing, c) && c[i].level in Increments(listing)
            && Increments(listing)[c[i].level] == c[i]
            && c[i].level in Increments(c) && Increments(c)[c[i].level] != c[i]
  {
    MovedIsSame(z, c, i);
    var listing := MovedLast(c, i);
    assert listing[|listing| - 1] == c[i] && LastOfLevel(listing, |listing| - 1);
    LastIsEntry(listing, |listing| - 1);
    ChainOrdered(z, c, i, j);
    ChainEntryIsNewest(z, c, c[j]);
  }

  /** The order of the listing plays no part exactly when no level was made again. */
  lemma AnyListingServesIff<D>(z: int, c: Chain<D>)
    requires ChainValid(z, c)
    ensures (forall listing: Chain<D> | SameBackups(listing, c) :: Increments(listing) == Increments(c)) <==> MadeOnce(c)
  {
    if MadeOnce(c) {
      forall listing: Chain<D> | SameBackups(listing, c) ensures Increments(listing) == Increments(c) {
        ListingServesIff(z, c, listing);
        forall i, j | 0 <= i < |listing| && 0 <= j < |listing| && listing[j].level == listing[i].level
          ensures listing[j] == listing[i]
        {
          OneOfLevel(c, listing[i], listing[j]);
        }
      }
    } else {
      var i, j :| 0 <= i < j < |c| && c[i].level == c[j].level;
      OlderCanBeListedLast(z, c, i, j);
    }
  }

  lemma OneOfLevel<D>(c: Chain<D>, a: Backup<D>, b: Backup<D>)
    requires MadeOnce(c) && a in c && b in c && a.level == b.level
    ensures a == b
  {
  }
}
