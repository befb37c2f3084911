/**
 * The history of backups of one name: which backup a new one builds on, what a restore reads
 * and what a removal deletes (freezer/storage/base.py, freezer/storage/physical.py,
 * freezer/engine/engine.py).
 */
module Planner {
  import opened Bytes

  /** A stored backup; `data` is whatever the engine wrote. */
  datatype Backup<D> = Backup(zero: int, timestamp: int, level: nat, data: D)

  /** All backups of one level-zero directory, in the order they were made. */
  type Chain<D> = seq<Backup<D>>

  /** The level-zero directories by their timestamp. */
  type Store<D> = map<int, Chain<D>>

  /** The options of one run; 0 and 0.0 stand for "not given". */
  datatype Config = Config(incremental: bool, maxLevel: int, alwaysLevel: int, restartDays: real)

  /** A result, or an exception that leaves the storage unchanged. */
  datatype Outcome<T> = Value(value: T) | Raised

  // ---------- listings ----------

  /** The dictionary built from a directory listing: a later entry of a level replaces an earlier one. */
  function Increments<D>(listing: Chain<D>): map<nat, Backup<D>> {
    if listing == [] then map[]
    else
      var n := |listing| - 1;
      Increments(listing[..n])[listing[n].level := listing[n]]
  }

  method GetIncrements<D>(listing: Chain<D>) returns (r: map<nat, Backup<D>>)
    ensures r == Increments(listing)
  {
    r := map[];
    for k := 0 to |listing|
      invariant r == Increments(listing[..k])
    {
      TakeSnoc(listing, k);
      r := r[listing[k].level := listing[k]];
    }
    assert listing[..|listing|] == listing;
  }

  /** Position `i` is the last one with its level. */
  predicate LastOfLevel<D>(listing: Chain<D>, i: nat)
    requires i < |listing|
  {
    forall j :: i < j < |listing| ==> listing[j].level != listing[i].level
  }

  /** The dictionary holds exactly the last backup listed for each level. */
  lemma {:induction false} IncrementsAreLast<D>(listing: Chain<D>, level: nat)
    ensures level in Increments(listing) <==> exists i :: 0 <= i < |listing| && listing[i].level == level
    ensures level in Increments(listing) ==>
              exists i :: 0 <= i < |listing| && listing[i] == Increments(listing)[level]
                          && listing[i].level == level && LastOfLevel(listing, i)
  {
    if listing != [] {
      var n := |listing| - 1;
      var p := listing[..n];
      IncrementsAreLast(p, level);
      if listing[n].level == level {
        assert LastOfLevel(listing, n);
      } else if level in Increments(p) {
        var i :| 0 <= i < n && p[i] == Increments(p)[level] && p[i].level == level && LastOfLevel(p, i);
        assert listing[i] == p[i];
        assert LastOfLevel(listing, i);
      } else {
        forall i | 0 <= i < |listing|
          ensures listing[i].level != level
        {
          if i < n {
            assert p[i].level != level;
          }
        }
      }
    }
  }

  // ---------- the storage's own functions ----------

  /** Level-zero directories up to a date; no date (or 0) means all of them. */
  function Zeros<D>(s: Store<D>, recentToDate: int): set<int> {
    set z | z in s && (recentToDate == 0 || z <= recentToDate)
  }

  lemma NonEmptyHasMember(zs: set<int>)
    requires zs != {}
    ensures exists z :: z in zs
  {
    assert (forall z :: z !in zs) ==> zs == {};
  }

  /** The largest of a non-empty set. */
  ghost function Greatest(zs: set<int>): (m: int)
    requires zs != {}
    ensures m in zs && forall z :: z in zs ==> z <= m
  {
    NonEmptyHasMember(zs);
    var z :| z in zs;
    if zs == {z} then z
    else
      var m := Greatest(zs - {z});
      assert forall x :: x in zs ==> x == z || x in zs - {z};
      Max(z, m)
  }

  function UpTo<D>(increments: map<nat, Backup<D>>, recentToDate: int): map<nat, Backup<D>> {
    map l | l in increments && (recentToDate == 0 || increments[l].timestamp <= recentToDate) :: increments[l]
  }

  /** The increments of the newest chain up to a date; None is the source's IndexError. */
  ghost function LatestIncrements<D>(s: Store<D>, recentToDate: int): Option<map<nat, Backup<D>>> {
    var zs := Zeros(s, recentToDate);
    if zs == {} then None else Some(UpTo(Increments(s[Greatest(zs)]), recentToDate))
  }

  ghost function HighestLevel<D>(increments: map<nat, Backup<D>>): (m: nat)
    requires increments != map[]
    ensures m in increments && forall l :: l in increments ==> l <= m
  {
    var levels: set<int> := set l: nat | l in increments :: l as int;
    assert levels != {} by {
      var l :| l in increments;
      assert l as int in levels;
    }
    var m := Greatest(levels);
    assert forall l :: l in increments ==> l as int in levels;
    m
  }

  predicate Expired(timestamp: int, restartDays: real, now: int) {
    restartDays != 0.0 && now as real > timestamp as real + restartDays * 86400.0
  }

  /** The choice among the increments of the newest chain. */
  ghost function Choice<D>(increments: map<nat, Backup<D>>, c: Config, now: int): Outcome<Option<Backup<D>>> {
    if increments == map[] then Raised
    else
      var highest := HighestLevel(increments);
      if c.maxLevel != 0 && c.maxLevel <= highest then Value(None)
      else if c.alwaysLevel != 0 && highest > c.alwaysLevel then Value(None)
      else if Expired(increments[highest].timestamp, c.restartDays, now) then Value(None)
      else if c.alwaysLevel != 0 && highest == c.alwaysLevel then
        if highest - 1 in increments then Value(Some(increments[highest - 1])) else Raised
      else Value(Some(increments[highest]))
  }

  /** The backup a new run builds on. */
  ghost function Previous<D>(s: Store<D>, c: Config, now: int): Outcome<Option<Backup<D>>> {
    if !c.incremental then Value(None)
    else
      match LatestIncrements(s, 0)
      case None => Value(None)
      case Some(increments) => Choice(increments, c, now)
  }

  /** The store after a backup built on `prev` was published. */
  function Add<D>(s: Store<D>, prev: Option<Backup<D>>, timestamp: int, data: D): Store<D> {
    match prev
    case None => s[timestamp := [Backup(timestamp, timestamp, 0, data)]]
    case Some(p) =>
      var made := Backup(p.zero, timestamp, p.level + 1, data);
      s[p.zero := (if p.zero in s then s[p.zero] else []) + [made]]
  }

  /** The store after removing what is not newer than `t`; 0 removes everything. */
  function Removed<D>(s: Store<D>, t: int): Store<D> {
    map z | z in s && !(t == 0 || z <= t) :: s[z]
  }

  class Storage<D> {
    var chains: Store<D>

    constructor ()
      ensures chains == map[]
    {
      chains := map[];
    }

    /** List the level-zero directories, in whatever order the storage gives. */
    method GetLevelZero(recentToDate: int) returns (zeros: seq<int>)
      ensures Lists(zeros, Zeros(chains, recentToDate))
    {
      zeros := [];
      var left := chains.Keys;
      while left != {}
        invariant left <= chains.Keys
        invariant Distinct(zeros)
        invariant forall z :: z in zeros ==> z in Zeros(chains, recentToDate) && z !in left
        invariant forall z :: z in Zeros(chains, recentToDate) ==> z in zeros || z in left
        decreases left
      {
        NonEmptyHasMember(left);
        var z :| z in left;
        left := left - {z};
        if recentToDate == 0 || z <= recentToDate {
          zeros := zeros + [z];
        }
      }
    }

    method GetLatestLevelZeroIncrements(recentToDate: int) returns (r: Option<map<nat, Backup<D>>>)
      ensures r == LatestIncrements(chains, recentToDate)
    {
      var zeros := GetLevelZero(recentToDate);
      if zeros == [] {
        return None;
      }
      assert zeros[0] in zeros;
      var newest := zeros[0];
      for k := 1 to |zeros|
        invariant newest in zeros && forall j :: 0 <= j < k ==> zeros[j] <= newest
      {
        if zeros[k] > newest {
          newest := zeros[k];
        }
      }
      assert newest == Greatest(Zeros(chains, recentToDate));
      var increments := GetIncrements(chains[newest]);
      r := Some(map l | l in increments && (recentToDate == 0 || increments[l].timestamp <= recentToDate)
                      :: increments[l]);
    }

    method MaxLevel(increments: map<nat, Backup<D>>) returns (m: nat)
      requires increments != map[]
      ensures m == HighestLevel(increments)
    {
      var left := increments.Keys;
      m :| m in left;
      left := left - {m};
      while left != {}
        invariant m in increments && left <= increments.Keys
        invariant forall l :: l in increments ==> l in left || l <= m
        decreases left
      {
        var l :| l in left;
        left := left - {l};
        m := if l > m then l else m;
      }
    }

    method PreviousBackup(c: Config, now: int) returns (r: Outcome<Option<Backup<D>>>)
      ensures r == Previous(chains, c, now)
    {
      if !c.incremental {
        return Value(None);
      }
      var latest := GetLatestLevelZeroIncrements(0);
      if latest.None? {
        return Value(None);
      }
      var increments := latest.value;
      if increments == map[] {
        return Raised;
      }
      var highest := MaxLevel(increments);
      if c.maxLevel != 0 && c.maxLevel <= highest {
        return Value(None);
      }
      if c.alwaysLevel != 0 && highest > c.alwaysLevel {
        return Value(None);
      }
      if Expired(increments[highest].timestamp, c.restartDays, now) {
        return Value(None);
      }
      if c.alwaysLevel != 0 && highest == c.alwaysLevel {
        if highest - 1 !in increments {
          return Raised;
        }
        return Value(Some(increments[highest - 1]));
      }
      return Value(Some(increments[highest]));
    }

    /** Publish a finished backup. */
    method PutBackup(prev: Option<Backup<D>>, timestamp: int, data: D)
      modifies this
      ensures chains == Add(old(chains), prev, timestamp, data)
    {
      var zero := if prev.Some? then prev.value.zero else timestamp;
      var level := if prev.Some? then prev.value.level + 1 else 0;
      var made := Backup(zero, timestamp, level, data);
      if prev.Some? && zero in chains {
        chains := chains[zero := chains[zero] + [made]];
      } else {
        assert [] + [made] == [made];
        chains := chains[zero := [made]];
      }
    }

    method RemoveOlderThan(t: int)
      modifies this
      ensures chains == Removed(old(chains), t)
    {
      var zeros := GetLevelZero(t);
      for k := 0 to |zeros|
        invariant forall z :: z in chains <==> z in old(chains) && z !in zeros[..k]
        invariant forall z :: z in chains ==> chains[z] == old(chains)[z]
      {
        TakeSnoc(zeros, k);
        chains := chains - {zeros[k]};
      }
      assert zeros[..|zeros|] == zeros;
      forall z
        ensures z in chains <==> z in Removed(old(chains), t)
      {
        assert z in zeros <==> z in Zeros(old(chains), t);
      }
    }
  }

  // ---------- the invariant of every history ----------

  /** Levels go 0, 1, ... in steps of at most one, level 0 once, timestamps increase. */
  ghost predicate ChainValid<D>(z: int, c: Chain<D>) {
    && c != [] && c[0].level == 0 && c[0].timestamp == z
    && (forall i :: 0 <= i < |c| ==> c[i].zero == z)
    && (forall i, j :: 0 <= i < |c| && j == i + 1 < |c| ==> Follows(c[i], c[j]))
  }

  /** The next backup of a chain is later, and one level higher or again at the same level above zero. */
  predicate Follows<D>(b: Backup<D>, next: Backup<D>) {
    b.timestamp < next.timestamp && (next.level == b.level + 1 || next.level == b.level > 0)
  }

  /** Every chain is valid, ends by `last`, and ends before any later chain begins. */
  ghost predicate StoreValid<D>(s: Store<D>, last: int) {
    && (forall z :: z in s ==> ChainValid(z, s[z]) && s[z][|s[z]| - 1].timestamp <= last)
    && (forall z, y :: z in s && y in s && z < y ==> s[z][|s[z]| - 1].timestamp < y)
  }

  lemma {:induction false} ChainOrdered<D>(z: int, c: Chain<D>, i: nat, j: nat)
    requires ChainValid(z, c) && i < j < |c|
    ensures c[i].timestamp < c[j].timestamp && c[i].level <= c[j].level && z <= c[i].timestamp
    ensures c[j].level > 0
    decreases j
  {
    if i + 1 < j {
      ChainOrdered(z, c, i, j - 1);
      assert c[j - 1].timestamp < c[j - 1 + 1].timestamp;
    } else {
      assert c[i].timestamp < c[i + 1].timestamp;
      if i > 0 {
        ChainOrdered(z, c, i - 1, i);
      }
    }
  }

  /** Every level up to that of a chain member occurs at or before it. */
  lemma {:induction false} LevelsHaveNoGaps<D>(z: int, c: Chain<D>, i: nat, level: nat) returns (j: nat)
    requires ChainValid(z, c) && i < |c| && level <= c[i].level
    ensures j <= i && c[j].level == level
    decreases i
  {
    if c[i].level == level {
      j := i;
    } else {
      assert i > 0 && c[i - 1].timestamp < c[i - 1 + 1].timestamp;
      j := LevelsHaveNoGaps(z, c, i - 1, level);
    }
  }

  /**
   * A restore's dictionary of a valid chain has exactly the levels 0..top, and its timestamps
   * increase with the level.
   */
  lemma ChainIncrements<D>(z: int, c: Chain<D>)
    requires ChainValid(z, c)
    ensures var inc, top := Increments(c), c[|c| - 1].level;
            && (forall l :: l in inc <==> 0 <= l <= top)
            && inc[top] == c[|c| - 1]
            && (forall l :: 0 <= l <= top ==> inc[l].level == l && inc[l].zero == z && z <= inc[l].timestamp)
            && (forall l, m :: 0 <= l < m <= top ==> inc[l].timestamp < inc[m].timestamp)
  {
  }

  lemma LevelPresent<D>(z: int, c: Chain<D>, l: nat)
    requires ChainValid(z, c)
    ensures l in Increments(c) <==> l <= c[|c| - 1].level
  {
  }

  /** Where in the chain the newest backup of a level stands. */
  lemma IncrementIndex<D>(z: int, c: Chain<D>, l: nat) returns (i: nat)
    requires ChainValid(z, c) && l <= c[|c| - 1].level
    ensures i < |c| && l in Increments(c) && c[i] == Increments(c)[l] && c[i].level == l && LastOfLevel(c, i)
    ensures z <= c[i].timestamp && c[i].zero == z
  {
    LevelPresent(z, c, l);
    IncrementsAreLast(c, l);
    i :| 0 <= i < |c| && c[i] == Increments(c)[l] && c[i].level == l && LastOfLevel(c, i);
    if i > 0 {
      ChainOrdered(z, c, 0, i);
    }
  }

  // ---------- what every run keeps ----------

  /** The backup a run builds on is the newest of its level in the newest chain, just below the next level. */
  lemma PreviousOfValid<D>(s: Store<D>, last: int, c: Config, now: int)
    requires StoreValid(s, last)
    ensures Previous(s, c, now).Value?
    ensures var p := Previous(s, c, now).value;
            p.Some? ==>
              && p.value.zero in s && (forall z :: z in s ==> z <= p.value.zero)
              && p.value.level in Increments(s[p.value.zero])
              && p.value == Increments(s[p.value.zero])[p.value.level]
              && var chain := s[p.value.zero];
                 var top := chain[|chain| - 1].level;
                 p.value.level == top || (p.value.level == top - 1 && c.alwaysLevel == top)
  {
    if c.incremental && Zeros(s, 0) != {} {
      NewestChain(s, last);
      PreviousOfDictionary(Increments(s[Greatest(Zeros(s, 0))]), Greatest(Zeros(s, 0)), c, now);
    }
  }

  /** The choice within one dictionary that has the levels 0 to its highest. */
  lemma PreviousOfDictionary<D>(inc: map<nat, Backup<D>>, z: int, c: Config, now: int)
    requires inc != map[]
    requires forall l :: l in inc <==> 0 <= l <= HighestLevel(inc)
    requires forall l :: l in inc ==> inc[l].level == l && inc[l].zero == z
    ensures Choice(inc, c, now).Value?
    ensures var p := Choice(inc, c, now).value;
            p.Some? ==>
              p.value.zero == z && p.value.level in inc && p.value == inc[p.value.level]
              && (p.value.level == HighestLevel(inc)
                  || (p.value.level == HighestLevel(inc) - 1 && c.alwaysLevel == HighestLevel(inc)))
  {
  }

  /** Without a date, a restore reads the increments of the newest chain, levels 0 to its top. */
  lemma NewestChain<D>(s: Store<D>, last: int)
    requires StoreValid(s, last) && Zeros(s, 0) != {}
    ensures var z := Greatest(Zeros(s, 0));
            var inc := Increments(s[z]);
            && (forall y :: y in s ==> y <= z)
            && LatestIncrements(s, 0) == Some(inc) && inc != map[]
            && HighestLevel(inc) == s[z][|s[z]| - 1].level
            && (forall l :: l in inc <==> 0 <= l <= HighestLevel(inc))
            && (forall l :: l in inc ==> inc[l].level == l && inc[l].zero == z)
  {
    assert forall z :: z in s ==> z in Zeros(s, 0);
    var z := Greatest(Zeros(s, 0));
    var inc, top := Increments(s[z]), s[z][|s[z]| - 1].level;
    ChainIncrements(z, s[z]);
    assert UpTo(inc, 0) == inc;
    HighestIsTop(inc, top);
  }

  lemma HighestIsTop<D>(inc: map<nat, Backup<D>>, top: nat)
    requires forall l :: l in inc <==> 0 <= l <= top
    ensures inc != map[] && HighestLevel(inc) == top
  {
    assert top in inc;
  }

  /** Replacing or adding the newest chain by one that ends later. */
  lemma NewestChainKeepsValid<D>(s: Store<D>, last: int, z: int, c: Chain<D>, end: int)
    requires StoreValid(s, last) && (forall y :: y in s ==> y <= z) && (z in s || z > last)
    requires ChainValid(z, c) && c[|c| - 1].timestamp == end > last
    ensures StoreValid(s[z := c], end)
  {
  }

  lemma AddKeepsChains<D>(s: Store<D>, last: int, prev: Option<Backup<D>>, timestamp: int, data: D)
    requires StoreValid(s, last) && timestamp > last
    requires prev.Some? ==>
               && prev.value.zero in s && (forall z :: z in s ==> z <= prev.value.zero)
               && var chain := s[prev.value.zero];
                  var top := chain[|chain| - 1].level;
                  prev.value.level == top || prev.value.level == top - 1
    ensures StoreValid(Add(s, prev, timestamp, data), timestamp)
  {
    if prev.Some? {
      var z := prev.value.zero;
      var made := Backup(z, timestamp, prev.value.level + 1, data);
      AppendKeepsChain(z, s[z], made);
      NewestChainKeepsValid(s, last, z, s[z] + [made], timestamp);
    } else {
      forall z | z in s
        ensures z < timestamp
      {
        ChainStartsAtKey(z, s[z]);
      }
      NewestChainKeepsValid(s, last, timestamp, [Backup(timestamp, timestamp, 0, data)], timestamp);
    }
  }

  /** Publishing a backup made at a later time keeps the invariant. */
  lemma AddKeepsValid<D>(s: Store<D>, last: int, c: Config, now: int, timestamp: int, data: D)
    requires StoreValid(s, last) && timestamp > last
    ensures Previous(s, c, now).Value?
    ensures StoreValid(Add(s, Previous(s, c, now).value, timestamp, data), timestamp)
  {
    PreviousOfValid(s, last, c, now);
    AddKeepsChains(s, last, Previous(s, c, now).value, timestamp, data);
  }

  /** The published backup is the last of the newest chain. */
  lemma NewestIsAdded<D>(s: Store<D>, last: int, c: Config, now: int, timestamp: int, data: D)
    requires StoreValid(s, last) && timestamp > last && Previous(s, c, now).Value?
    ensures var prev := Previous(s, c, now).value;
            var s' := Add(s, prev, timestamp, data);
            Zeros(s', 0) != {}
            && var chain := s'[Greatest(Zeros(s', 0))];
               chain != [] && var made := chain[|chain| - 1];
               made.data == data && made.timestamp == timestamp
               && made.level == if prev.Some? then prev.value.level + 1 else 0
  {
    PreviousOfValid(s, last, c, now);
    var prev := Previous(s, c, now).value;
    var s' := Add(s, prev, timestamp, data);
    var z := if prev.Some? then prev.value.zero else timestamp;
    assert z in Zeros(s', 0);
    forall y | y in Zeros(s', 0)
      ensures y <= z
    {
      if prev.None? && y in s {
        ChainStartsAtKey(y, s[y]);
      }
    }
    assert Greatest(Zeros(s', 0)) == z;
  }

  lemma ChainStartsAtKey<D>(z: int, c: Chain<D>)
    requires ChainValid(z, c)
    ensures z <= c[|c| - 1].timestamp
  {
    if |c| > 1 {
      ChainOrdered(z, c, 0, |c| - 1);
    }
  }

  lemma AppendKeepsChain<D>(z: int, c: Chain<D>, made: Backup<D>)
    requires ChainValid(z, c) && made.zero == z && made.timestamp > c[|c| - 1].timestamp
    requires made.level == c[|c| - 1].level + 1 || made.level == c[|c| - 1].level > 0
    ensures ChainValid(z, c + [made])
  {
  }

  lemma RemoveKeepsValid<D>(s: Store<D>, last: int, t: int)
    requires StoreValid(s, last)
    ensures StoreValid(Removed(s, t), last)
  {
  }

  /** A removal that leaves anything leaves the newest chain. */
  lemma RemovalKeepsNewest<D>(s: Store<D>, t: int)
    requires Zeros(Removed(s, t), 0) != {}
    ensures Zeros(s, 0) != {} && Greatest(Zeros(Removed(s, t), 0)) == Greatest(Zeros(s, 0))
  {
    var z := Greatest(Zeros(Removed(s, t), 0));
    assert z in Zeros(s, 0);
    var g := Greatest(Zeros(s, 0));
    assert g in Removed(s, t) && g in Zeros(Removed(s, t), 0);
  }

  /** One run of the agent: a backup (with its two clock readings) or a removal. */
  datatype Event<D> =
    | DoBackup(config: Config, now: int, timestamp: int, data: D)
    | DoRemove(olderThan: int)

  ghost function Step<D>(s: Store<D>, e: Event<D>): Store<D> {
    match e
    case DoRemove(t) => Removed(s, t)
    case DoBackup(c, now, timestamp, data) =>
      match Previous(s, c, now)
      case Raised => s
      case Value(prev) => Add(s, prev, timestamp, data)
  }

  ghost function Run<D>(events: seq<Event<D>>): Store<D> {
    if events == [] then map[] else Step(Run(events[..|events| - 1]), events[|events| - 1])
  }

  /** The latest backup time of a history. */
  ghost function LastTime<D>(events: seq<Event<D>>): int {
    if events == [] then 0
    else
      var e := events[|events| - 1];
      if e.DoBackup? then e.timestamp else LastTime(events[..|events| - 1])
  }

  /** The clock gives every backup a positive timestamp later than all before it. */
  ghost predicate ClockIncreases<D>(events: seq<Event<D>>) {
    forall k :: 0 <= k < |events| && events[k].DoBackup? ==> events[k].timestamp > LastTime(events[..k])
  }

  /** The chain invariant holds after every run of backups and removals, whatever the options. */
  lemma {:induction false} RunsAreValid<D>(events: seq<Event<D>>)
    requires ClockIncreases(events)
    ensures StoreValid(Run(events), LastTime(events)) && LastTime(events) >= 0
    ensures forall z :: z in Run(events) ==> z > 0
  {
    if events != [] {
      var n := |events| - 1;
      var p, e := events[..n], events[n];
      assert forall k :: 0 <= k < n ==> p[..k] == events[..k];
      RunsAreValid(p);
      if e.DoBackup? {
        assert e.timestamp > LastTime(events[..n]);
        AddKeepsValid(Run(p), LastTime(p), e.config, e.now, e.timestamp, e.data);
        PreviousOfValid(Run(p), LastTime(p), e.config, e.now);
      } else {
        RemoveKeepsValid(Run(p), LastTime(p), e.olderThan);
      }
    }
  }

  /** A restore without a date never misses a level. */
  lemma RestoreLookupNeverMisses<D>(s: Store<D>, last: int, level: nat)
    requires StoreValid(s, last) && s != map[]
    ensures LatestIncrements(s, 0).Some?
    ensures var inc := LatestIncrements(s, 0).value;
            inc != map[] && (level <= HighestLevel(inc) ==> level in inc)
  {
    ZerosOfNonEmpty(s);
    NewestChain(s, last);
  }

  lemma ZerosOfNonEmpty<D>(s: Store<D>)
    requires s != map[]
    ensures Zeros(s, 0) == s.Keys != {}
  {
  }

  // ---------- what a removal promises ----------

  /** The backup is stored. */
  ghost predicate Holds<D>(s: Store<D>, b: Backup<D>) {
    b.zero in s && b in s[b.zero]
  }

  /** No backup newer than `t` is lost. */
  ghost predicate SparesNewer<D(!new)>(s: Store<D>, t: int) {
    forall b: Backup<D> :: Holds(s, b) && b.timestamp > t ==> Holds(Removed(s, t), b)
  }

  /** Every backup not newer than the date goes, and none appears. */
  lemma RemovalRemovesOlder<D>(s: Store<D>, last: int, t: int, b: Backup<D>)
    requires StoreValid(s, last) && t != 0
    ensures Holds(Removed(s, t), b) ==> Holds(s, b) && b.timestamp > t
  {
    if Holds(Removed(s, t), b) {
      var i :| 0 <= i < |s[b.zero]| && s[b.zero][i] == b;
      if i > 0 {
        ChainOrdered(b.zero, s[b.zero], 0, i);
      }
    }
  }

  /** Some chain begins by `t` and goes on after it. */
  ghost predicate Straddles<D>(s: Store<D>, t: int) {
    Zeros(s, t) != {}
    && var c := s[Greatest(Zeros(s, t))];
       c != [] && c[|c| - 1].timestamp > t
  }

  /**
   * The documented promise, to remove what is not newer than the date, is kept for every newer backup
   * exactly when no chain straddles the date; and only the newest chain begun by then can.
   */
  lemma RemovalSparesNewerIff<D(!new)>(s: Store<D>, last: int, t: int)
    requires StoreValid(s, last) && t != 0
    ensures SparesNewer(s, t) <==> !Straddles(s, t)
  {
    if Straddles(s, t) {
      var z := Greatest(Zeros(s, t));
      var b := s[z][|s[z]| - 1];
      assert Holds(s, b) && !Holds(Removed(s, t), b);
    } else {
      forall b: Backup<D> | Holds(s, b) && b.timestamp > t
        ensures Holds(Removed(s, t), b)
      {
        var i :| 0 <= i < |s[b.zero]| && s[b.zero][i] == b;
        if b.zero <= t {
          NewerStraddles(s, last, t, b.zero, i);
        }
      }
    }
  }

  /** A chain that straddles the date is the newest one begun by then. */
  lemma NewerStraddles<D>(s: Store<D>, last: int, t: int, z: int, i: nat)
    requires StoreValid(s, last) && t != 0 && z in s && z <= t && i < |s[z]| && s[z][i].timestamp > t
    ensures Straddles(s, t)
  {
    assert z in Zeros(s, t);
    if i < |s[z]| - 1 {
      ChainOrdered(z, s[z], i, |s[z]| - 1);
    }
  }

  /** A backup later than the date is deleted with the chain it belongs to, over a run of three events. */
  lemma RemovalLosesNewer<D(!new)>(full: D, incremental: D)
    ensures var c := Config(true, 0, 0, 0.0);
            var backups := [DoBackup(c, 1, 1, full), DoBackup(c, 3, 3, incremental)];
            && ClockIncreases(backups)
            && Holds(Run(backups), Backup(1, 3, 1, incremental))
            && Run(backups + [DoRemove(2)]) == map[] && !SparesNewer(Run(backups), 2)
  {
    var c := Config(true, 0, 0, 0.0);
    var first, second: Event<D> := DoBackup(c, 1, 1, full), DoBackup(c, 3, 3, incremental);
    var chain := [Backup(1, 1, 0, full), Backup(1, 3, 1, incremental)];
    var backups := [first, second];
    FirstOfChain(full);
    assert backups[..1] == [first] && [first][..0] == [];
    assert (backups + [DoRemove(2)])[..2] == backups;
    assert Run([first]) == map[1 := [chain[0]]];
    assert [chain[0]] + [chain[1]] == chain;
    assert Run(backups) == map[1 := chain];
    assert Holds(Run(backups), chain[1]) && chain[1].timestamp > 2;
    assert Removed(map[1 := chain], 2) == map[];
    assert !Holds(Removed(Run(backups), 2), chain[1]);
  }

  lemma FirstOfChain<D>(full: D)
    ensures var c, b := Config(true, 0, 0, 0.0), Backup(1, 1, 0, full);
            && Previous<D>(map[], c, 1) == Value(None)
            && Previous(map[1 := [b]], c, 3) == Value(Some(b))
  {
    var c, b := Config(true, 0, 0, 0.0), Backup(1, 1, 0, full);
    assert Zeros<D>(map[], 0) == {};
    var s := map[1 := [b]];
    assert 1 in Zeros(s, 0) && Greatest(Zeros(s, 0)) == 1;
    assert [b][..0] == [];
    var inc := Increments([b]);
    assert inc == Increments<D>([])[0 := b] && 0 in inc;
    assert UpTo(inc, 0) == inc && HighestLevel(inc) == 0;
  }

  /** Zero counts as no date, and removes everything. */
  lemma RemovalWithoutDate<D>(s: Store<D>)
    ensures Removed(s, 0) == map[]
  {
  }

  // ---------- a level zero whose first backup never became visible ----------

  /**
   * An empty level zero, newer than every backup, makes every incremental run raise, because there is no
   * highest level; full runs are not affected, and dated restores only from its date on.
   */
  lemma EmptyZeroRaisesIff<D>(s: Store<D>, last: int, z: int, c: Config, now: int, date: int)
    requires StoreValid(s, last) && z > last && z !in s
    ensures Previous(s[z := []], c, now).Raised? <==> c.incremental
    ensures LatestIncrements(s[z := []], date)
            == if date == 0 || z <= date then Some(map[]) else LatestIncrements(s, date)
  {
    EmptyZeroRead(s, last, z, date);
    EmptyZeroRead(s, last, z, 0);
  }

  lemma EmptyZeroRead<D>(s: Store<D>, last: int, z: int, date: int)
    requires StoreValid(s, last) && z > last && z !in s
    ensures LatestIncrements(s[z := []], date)
            == if date == 0 || z <= date then Some(map[]) else LatestIncrements(s, date)
  {
    var r := s[z := []];
    forall y | y in s ensures y < z {
      ChainBegins(s, last, y);
    }
    if date == 0 || z <= date {
      assert z in Zeros(r, date) && Greatest(Zeros(r, date)) == z;
      assert UpTo(Increments<D>([]), date) == map[];
    } else {
      assert Zeros(r, date) == Zeros(s, date);
    }
  }

  lemma ChainBegins<D>(s: Store<D>, last: int, y: int)
    requires StoreValid(s, last) && y in s
    ensures y <= last
  {
    if |s[y]| > 1 {
      ChainOrdered(y, s[y], 0, |s[y]| - 1);
    }
  }

  /** It stays in the way until a newer level zero is begun, or a removal takes it away with everything older. */
  lemma EmptyZeroHeals<D>(s: Store<D>, last: int, z: int, timestamp: int, data: D, c: Config, now: int, t: int)
    requires StoreValid(s, last) && z > last && z !in s && timestamp > z
    ensures Previous(Add(s[z := []], None, timestamp, data), c, now).Value?
    ensures z !in Removed(s[z := []], t) <==> t == 0 || z <= t
    ensures t != 0 && z <= t ==> Removed(s[z := []], t) == map[]
  {
    var b := Backup(timestamp, timestamp, 0, data);
    var r := s[z := []][timestamp := [b]];
    forall y | y in s ensures y < z {
      ChainBegins(s, last, y);
    }
    assert timestamp in Zeros(r, 0) && Greatest(Zeros(r, 0)) == timestamp;
    assert [b][..0] == [];
    assert Increments([b]) == Increments<D>([])[0 := b];
    var inc := Increments([b]);
    assert UpTo(inc, 0) == inc && 0 in inc && HighestLevel(inc) == 0;
  }
}
