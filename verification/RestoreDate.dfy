/** What a restore with a date selects out of a history (freezer/storage/base.py:82-107). */
module RestoreDate {
  import opened Bytes
  import opened Planner

  /** `s[z][i]` is the most recent backup of the whole history that is not after `date`. */
  ghost predicate MostRecent<D>(s: Store<D>, date: int, z: int, i: nat) {
    && z in s && i < |s[z]| && s[z][i].timestamp <= date
    && (forall y, j :: y in s && 0 <= j < |s[y]| && s[y][j].timestamp <= date
          ==> s[y][j].timestamp <= s[z][i].timestamp)
  }

  /** The selected chain is the one that holds the most recent backup. */
  lemma DateSelectsChain<D>(s: Store<D>, last: int, date: int, z: int, i: nat)
    requires StoreValid(s, last) && date != 0 && MostRecent(s, date, z, i)
    ensures Zeros(s, date) != {} && Greatest(Zeros(s, date)) == z
  {
    if i > 0 {
      ChainOrdered(z, s[z], 0, i);
    }
    assert z in Zeros(s, date);
    var g := Greatest(Zeros(s, date));
    if g != z {
      assert s[g][0].timestamp == g <= date;
      if i < |s[z]| - 1 {
        ChainOrdered(z, s[z], i, |s[z]| - 1);
      }
    }
  }

  /** Which levels of the chain survive the date filter. */
  lemma DateSelectsLevel<D>(s: Store<D>, last: int, date: int, z: int, i: nat, l: nat)
    requires StoreValid(s, last) && date != 0 && MostRecent(s, date, z, i)
    ensures var selected, r := UpTo(Increments(s[z]), date), s[z][i];
            && (l in selected <==> l < r.level || (l == r.level && LastOfLevel(s[z], i)))
            && (l in selected && l == r.level ==> selected[l] == r)
  {
    var c := s[z];
    LevelPresent(z, c, l);
    if i < |c| - 1 {
      ChainOrdered(z, c, i, |c| - 1);
    }
    if l <= c[|c| - 1].level {
      var k := IncrementIndex(z, c, l);
      if k < i {
        ChainOrdered(z, c, k, i);
      } else if i < k {
        ChainOrdered(z, c, i, k);
        assert c[k].timestamp > date;
      }
    }
  }

  /**
   * A date selects the levels 0..j of one chain; level j is the most recent backup not after the
   * date exactly when no later backup of that chain rewrote its level. Otherwise the selection
   * ends one level lower, at an older backup.
   */
  lemma PointInTimeRestore<D>(s: Store<D>, last: int, date: int, z: int, i: nat)
    requires StoreValid(s, last) && date != 0 && MostRecent(s, date, z, i)
    ensures var r := s[z][i];
            LatestIncrements(s, date).Some?
            && var selected := LatestIncrements(s, date).value;
               var top := if LastOfLevel(s[z], i) then r.level else r.level - 1;
               && top >= 0
               && (forall l :: l in selected <==> 0 <= l <= top)
               && (selected[top] == r <==> LastOfLevel(s[z], i))
               && (!LastOfLevel(s[z], i) ==> selected[top].timestamp < r.timestamp)
  {
    DateSelectsChain(s, last, date, z, i);
    forall l: nat
      ensures var r := s[z][i];
              l in UpTo(Increments(s[z]), date) <==> l < r.level || (l == r.level && LastOfLevel(s[z], i))
    {
      DateSelectsLevel(s, last, date, z, i, l);
    }
    DateSelectsLevel(s, last, date, z, i, s[z][i].level);
    if !LastOfLevel(s[z], i) {
      OneLevelLower(s[z], z, i);
    }
  }

  /** Below a rewritten level the newest backup is older. */
  lemma OneLevelLower<D>(c: Chain<D>, z: int, i: nat)
    requires ChainValid(z, c) && i < |c| && !LastOfLevel(c, i)
    ensures c[i].level > 0
    ensures c[i].level - 1 in Increments(c) && Increments(c)[c[i].level - 1].timestamp < c[i].timestamp
  {
    var j :| i < j < |c| && c[j].level == c[i].level;
    RewrittenLevelIsPositive(z, c, i, j);
    ChainOrdered(z, c, i, |c| - 1);
    var k := IncrementIndex(z, c, c[i].level - 1);
    if i < k {
      ChainOrdered(z, c, i, k);
    } else {
      ChainOrdered(z, c, k, i);
    }
  }

  lemma RewrittenLevelIsPositive<D>(z: int, c: Chain<D>, i: nat, j: nat)
    requires ChainValid(z, c) && i < j < |c| && c[i].level == c[j].level
    ensures c[i].level > 0
  {
    ChainOrdered(z, c, i, j);
  }

  /** With one backup per level a date always gives the most recent backup up to it. */
  lemma OneBackupPerLevel<D>(s: Store<D>, last: int, date: int, z: int, i: nat)
    requires StoreValid(s, last) && date != 0 && MostRecent(s, date, z, i)
    requires forall j, k :: 0 <= j < k < |s[z]| ==> s[z][j].level != s[z][k].level
    ensures LatestIncrements(s, date).Some? && s[z][i].level in LatestIncrements(s, date).value
    ensures LatestIncrements(s, date).value[s[z][i].level] == s[z][i]
  {
    PointInTimeRestore(s, last, date, z, i);
  }

  /** Nothing is selected exactly when every backup is later than the date. */
  lemma NothingSelected<D>(s: Store<D>, last: int, date: int)
    requires StoreValid(s, last) && date != 0
    ensures LatestIncrements(s, date).None?
       <==> forall z, i :: z in s && 0 <= i < |s[z]| ==> s[z][i].timestamp > date
  {
    if LatestIncrements(s, date).None? {
      forall z, i | z in s && 0 <= i < |s[z]|
        ensures s[z][i].timestamp > date
      {
        assert z !in Zeros(s, date);
        if i > 0 {
          ChainOrdered(z, s[z], 0, i);
        }
      }
    } else {
      var z := Greatest(Zeros(s, date));
      assert s[z][0].timestamp <= date;
    }
  }

  /** A level made again after the date hides the backup the date asks for. */
  lemma RewrittenLevelIsHidden()
    ensures var s: Store<()> := map[1 := [Backup(1, 1, 0, ()), Backup(1, 2, 1, ()), Backup(1, 3, 1, ())]];
            && StoreValid(s, 3) && MostRecent(s, 2, 1, 1)
            && LatestIncrements(s, 2).Some? && 1 !in LatestIncrements(s, 2).value
  {
    var c: Chain<()> := [Backup(1, 1, 0, ()), Backup(1, 2, 1, ()), Backup(1, 3, 1, ())];
    var s: Store<()> := map[1 := c];
    assert Follows(c[0], c[1]) && Follows(c[1], c[2]) && ChainValid(1, c);
    assert c[1].level == c[2].level && !LastOfLevel(c, 1);
    PointInTimeRestore(s, 3, 2, 1, 1);
  }
}
