/** The level each run of a fixed schedule gets (freezer/storage/base.py:139-160). */
module LevelSchedule {
  import opened Bytes
  import opened Planner

  /** The level the run after a history would get. */
  ghost function NextLevel<D>(s: Store<D>, c: Config, now: int): nat {
    match Previous(s, c, now)
    case Value(Some(p)) => p.level + 1
    case _ => 0
  }

  /** The level of run `k` of a history of backups. */
  ghost function LevelOfRun<D>(events: seq<Event<D>>, k: nat): nat
    requires k < |events| && events[k].DoBackup?
  {
    NextLevel(Run(events[..k]), events[k].config, events[k].now)
  }

  ghost function Top<D>(s: Store<D>): nat
    requires Zeros(s, 0) != {}
  {
    var c := s[Greatest(Zeros(s, 0))];
    if c == [] then 0 else c[|c| - 1].level
  }

  /** The time of the last backup of the newest chain. */
  ghost function TopTime<D>(s: Store<D>): int
    requires Zeros(s, 0) != {}
  {
    var c := s[Greatest(Zeros(s, 0))];
    if c == [] then 0 else c[|c| - 1].timestamp
  }

  /** A published backup becomes the top of the newest chain. */
  lemma AddedIsTop<D>(s: Store<D>, last: int, c: Config, now: int, timestamp: int, data: D)
    requires StoreValid(s, last) && timestamp > last && Previous(s, c, now).Value?
    ensures var s' := Add(s, Previous(s, c, now).value, timestamp, data);
            Zeros(s', 0) != {} && Top(s') == NextLevel(s, c, now) && TopTime(s') == timestamp
  {
    NewestIsAdded(s, last, c, now, timestamp, data);
  }

  /** More than so many days after the last backup of the newest chain began; 0 stands for no limit. */
  lemma ExpiredIff(timestamp: int, restartDays: real, now: int)
    ensures Expired(timestamp, restartDays, now) <==>
              restartDays != 0.0 && (now - timestamp) as real > 86400.0 * restartDays
  {
  }

  /** The top level of the newest chain, and its time, decide. */
  lemma NextFromTop<D>(s: Store<D>, last: int, c: Config, now: int)
    requires StoreValid(s, last) && c.incremental
    ensures Zeros(s, 0) == {} ==> NextLevel(s, c, now) == 0
    ensures Zeros(s, 0) != {} ==>
              NextLevel(s, c, now)
              == if (c.maxLevel != 0 && c.maxLevel <= Top(s)) || (c.alwaysLevel != 0 && Top(s) > c.alwaysLevel)
                    || Expired(TopTime(s), c.restartDays, now) then 0
                 else if c.alwaysLevel != 0 && Top(s) == c.alwaysLevel then Top(s)
                 else Top(s) + 1
  {
    if Zeros(s, 0) != {} {
      NewestChain(s, last);
      var z := Greatest(Zeros(s, 0));
      var inc := Increments(s[z]);
      var h := HighestLevel(inc);
      assert Top(s) == h && inc[h].level == h;
      NewestOfTop(z, s[z]);
      if c.alwaysLevel != 0 && h == c.alwaysLevel {
        assert h - 1 in inc && inc[h - 1].level == h - 1;
      }
    }
  }

  /** The newest backup of the top level is the last of its chain. */
  lemma NewestOfTop<D>(z: int, c: Chain<D>)
    requires ChainValid(z, c)
    ensures var n := |c| - 1; c[n].level in Increments(c) && Increments(c)[c[n].level] == c[n]
  {
  }

  ghost predicate AllBackups<D>(events: seq<Event<D>>) {
    forall k :: 0 <= k < |events| ==> events[k].DoBackup?
  }

  ghost predicate AllWith<D>(events: seq<Event<D>>, c: Config) {
    forall k :: 0 <= k < |events| ==> events[k].DoBackup? && events[k].config == c
  }

  /** After at least one run, the top of the newest chain is the last run. */
  lemma TopIsLastRun<D>(events: seq<Event<D>>, k: nat)
    requires AllBackups(events) && ClockIncreases(events) && k < |events|
    ensures StoreValid(Run(events[..k]), LastTime(events[..k]))
    ensures var s := Run(events[..k + 1]);
            Zeros(s, 0) != {} && Top(s) == LevelOfRun(events, k) && TopTime(s) == events[k].timestamp
  {
    var p, e := events[..k], events[k];
    assert forall j :: 0 <= j < k ==> p[..j] == events[..j];
    RunsAreValid(p);
    PreviousOfValid(Run(p), LastTime(p), e.config, e.now);
    AddedIsTop(Run(p), LastTime(p), e.config, e.now, e.timestamp, e.data);
    TakeSnoc(events, k);
  }

  /** The level of a run from the run before it, whatever options either of them had; choosing it never raises. */
  lemma LevelFromPreviousRun<D>(events: seq<Event<D>>, k: nat)
    requires AllBackups(events) && ClockIncreases(events) && k < |events|
    ensures Previous(Run(events[..k]), events[k].config, events[k].now).Value?
    ensures k == 0 || !events[k].config.incremental ==> LevelOfRun(events, k) == 0
    ensures k > 0 && events[k].config.incremental ==>
              var c, top, age := events[k].config, LevelOfRun(events, k - 1), events[k].now - events[k - 1].timestamp;
              LevelOfRun(events, k)
              == if (c.maxLevel != 0 && c.maxLevel <= top) || (c.alwaysLevel != 0 && top > c.alwaysLevel)
                    || (c.restartDays != 0.0 && age as real > 86400.0 * c.restartDays) then 0
                 else if c.alwaysLevel != 0 && top == c.alwaysLevel then top
                 else top + 1
  {
    TopIsLastRun(events, k);
    PreviousOfValid(Run(events[..k]), LastTime(events[..k]), events[k].config, events[k].now);
    if events[k].config.incremental {
      LevelOfIncremental(events, k);
    }
  }

  lemma LevelOfIncremental<D>(events: seq<Event<D>>, k: nat)
    requires AllBackups(events) && ClockIncreases(events) && k < |events| && events[k].config.incremental
    ensures k == 0 ==> LevelOfRun(events, k) == 0
    ensures k > 0 ==>
              var c, top, age := events[k].config, LevelOfRun(events, k - 1), events[k].now - events[k - 1].timestamp;
              LevelOfRun(events, k)
              == if (c.maxLevel != 0 && c.maxLevel <= top) || (c.alwaysLevel != 0 && top > c.alwaysLevel)
                    || (c.restartDays != 0.0 && age as real > 86400.0 * c.restartDays) then 0
                 else if c.alwaysLevel != 0 && top == c.alwaysLevel then top
                 else top + 1
  {
    TopIsLastRun(events, k);
    NextFromTop(Run(events[..k]), LastTime(events[..k]), events[k].config, events[k].now);
    if k == 0 {
      assert Run(events[..0]) == map[];
      assert Zeros(Run(events[..0]), 0) == {};
    } else {
      TopIsLastRun(events, k - 1);
      ExpiredIff(events[k - 1].timestamp, events[k].config.restartDays, events[k].now);
    }
  }

  /** The level after `top` in a cycle of 0..m. */
  function Cycled(top: nat, m: nat): nat {
    if m <= top then 0 else top + 1
  }

  lemma CyclingLevels<D>(events: seq<Event<D>>, m: nat, k: nat)
    requires m >= 1 && AllWith(events, Config(true, m, 0, 0.0)) && ClockIncreases(events) && k < |events|
    ensures LevelOfRun(events, k) == if k == 0 then 0 else Cycled(LevelOfRun(events, k - 1), m)
  {
    LevelFromPreviousRun(events, k);
  }

  lemma CycleIsResidue(k: nat, m: nat)
    requires k > 0 && m >= 1
    ensures Cycled((k - 1) % (m + 1), m) == k % (m + 1)
  {
    NextResidue(k - 1, m + 1);
  }

  /** With only a maximum level `m`, the levels cycle through 0..m. */
  lemma {:induction false} MaxLevelSchedule<D>(events: seq<Event<D>>, m: nat, k: nat)
    requires m >= 1 && AllWith(events, Config(true, m, 0, 0.0)) && ClockIncreases(events) && k < |events|
    ensures LevelOfRun(events, k) == k % (m + 1)
  {
    CyclingLevels(events, m, k);
    if k > 0 {
      MaxLevelSchedule(events, m, k - 1);
      CycleIsResidue(k, m);
    }
  }

  lemma NextResidue(k: nat, n: nat)
    requires n > 1
    ensures (k + 1) % n == if k % n == n - 1 then 0 else k % n + 1
  {
    var q, r := k / n, k % n;
    assert k == q * n + r;
    if r == n - 1 {
      assert k + 1 == (q + 1) * n;
      RemainderIs(k + 1, n, q + 1, 0);
    } else {
      RemainderIs(k + 1, n, q, r + 1);
    }
  }

  /** With only an always-level `a`, the levels rise to `a` and stay there. */
  lemma {:induction false} AlwaysLevelSchedule<D>(events: seq<Event<D>>, a: nat, k: nat)
    requires a >= 1 && AllWith(events, Config(true, 0, a, 0.0)) && ClockIncreases(events) && k < |events|
    ensures LevelOfRun(events, k) == Min(k, a)
  {
    LevelFromPreviousRun(events, k);
    if k > 0 {
      AlwaysLevelSchedule(events, a, k - 1);
    }
  }

  /** The run is the first one, or began more than `d` days after the backup before it. */
  predicate Restarts<D>(events: seq<Event<D>>, d: real, k: nat)
    requires AllBackups(events) && k < |events|
  {
    k == 0 || (events[k].now - events[k - 1].timestamp) as real > 86400.0 * d
  }

  /** With only a restart interval of `d` days, a chain is begun exactly then, and otherwise goes up one level. */
  lemma RestartSchedule<D>(events: seq<Event<D>>, d: real, k: nat)
    requires d != 0.0 && AllWith(events, Config(true, 0, 0, d)) && ClockIncreases(events) && k < |events|
    ensures LevelOfRun(events, k) == 0 <==> Restarts(events, d, k)
    ensures !Restarts(events, d, k) ==> LevelOfRun(events, k) == LevelOfRun(events, k - 1) + 1
  {
    LevelFromPreviousRun(events, k);
  }

  /** So the level of a run is how many runs ago the last restart was. */
  lemma {:induction false} LevelSinceRestart<D>(events: seq<Event<D>>, d: real, r: nat, k: nat)
    requires d != 0.0 && AllWith(events, Config(true, 0, 0, d)) && ClockIncreases(events) && r <= k < |events|
    requires Restarts(events, d, r) && forall j :: r < j <= k ==> !Restarts(events, d, j)
    ensures LevelOfRun(events, k) == k - r
  {
    RestartSchedule(events, d, k);
    if k > r {
      LevelSinceRestart(events, d, r, k - 1);
    }
  }
}
