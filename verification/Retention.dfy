/**
 * Retention of the backups of one block storage volume (freezer/openstack/admin.py:40-149).
 */
module Retention {
  import opened Bytes

  datatype Status = Available | Deleting | Error | ErrorDeleting | OtherStatus

  /** An incremental backup depends on the backup taken just before it, its parent. */
  datatype Backup = Backup(id: string, isIncremental: bool, parent: string, status: Status, createdAt: int)

  /** Which deletions fail, and the status the service reports for them. */
  type Failing = map<string, Status>

  /** A volume's backups, oldest first: every incremental stands right after its parent. */
  ghost predicate Linked(s: seq<Backup>) {
    forall i :: LinkedAt(s, i)
  }

  predicate LinkedAt(s: seq<Backup>, i: int) {
    0 <= i < |s| && s[i].isIncremental ==> i > 0 && s[i].parent == s[i - 1].id
  }

  predicate InOrder(s: seq<Backup>, i: int, j: int) {
    0 <= i < j < |s| ==> s[i].id != s[j].id && s[i].createdAt <= s[j].createdAt
  }

  /** Ids are unique, and the list is in the order of creation, as the service sorts it. */
  ghost predicate Chronological(s: seq<Backup>) {
    forall i, j :: InOrder(s, i, j)
  }

  ghost predicate History(s: seq<Backup>) {
    Linked(s) && Chronological(s)
  }

  ghost predicate AllHistories(states: seq<seq<Backup>>) {
    forall k :: 0 <= k < |states| ==> History(states[k])
  }

  /** Every incremental that is left can be restored: its parent is left too. */
  ghost predicate NoOrphan(s: seq<Backup>) {
    forall i :: 0 <= i < |s| && s[i].isIncremental ==> exists k :: 0 <= k < |s| && s[k].id == s[i].parent
  }

  function Without(s: seq<Backup>, i: nat): seq<Backup>
    requires i < |s|
  {
    s[..i] + s[i + 1..]
  }

  function Marked(s: seq<Backup>, i: nat, status: Status): seq<Backup>
    requires i < |s|
  {
    s[i := s[i].(status := status)]
  }

  /** The position of an id, or the length of the list. */
  function Position(s: seq<Backup>, id: string): (i: nat)
    ensures i <= |s|
    ensures i < |s| ==> s[i].id == id
    ensures forall k :: 0 <= k < i ==> s[k].id != id
  {
    if s == [] || s[0].id == id then 0 else 1 + Position(s[1..], id)
  }

  /** Where the incrementals that directly follow position `i` end. */
  function ChainEnd(s: seq<Backup>, i: nat): (j: nat)
    requires i < |s|
    ensures i < j <= |s|
    ensures forall k :: i < k < j ==> s[k].isIncremental
    ensures j < |s| ==> !s[j].isIncremental
    decreases |s| - i
  {
    if i + 1 < |s| && s[i + 1].isIncremental then ChainEnd(s, i + 1) else i + 1
  }

  /** Deletes positions j-1 down to i, up to the first deletion that fails. */
  function DeleteBack(s: seq<Backup>, i: nat, j: nat, failing: Failing): (seq<Backup>, bool)
    requires i <= j <= |s|
    decreases j
  {
    if i == j then (s, false)
    else if s[j - 1].id in failing then (Marked(s, j - 1, failing[s[j - 1].id]), true)
    else DeleteBack(Without(s, j - 1), i, j - 1, failing)
  }

  /** The store after each of these attempts. */
  function DeleteBackStates(s: seq<Backup>, i: nat, j: nat, failing: Failing): seq<seq<Backup>>
    requires i <= j <= |s|
    decreases j
  {
    if i == j then []
    else if s[j - 1].id in failing then [Marked(s, j - 1, failing[s[j - 1].id])]
    else [Without(s, j - 1)] + DeleteBackStates(Without(s, j - 1), i, j - 1, failing)
  }

  /** A full backup and the incrementals that follow it, newest first. */
  function DeleteChain(s: seq<Backup>, id: string, failing: Failing): (seq<Backup>, bool) {
    var i := Position(s, id);
    if i == |s| then (s, false) else DeleteBack(s, i, ChainEnd(s, i), failing)
  }

  function DeleteChainStates(s: seq<Backup>, id: string, failing: Failing): seq<seq<Backup>> {
    var i := Position(s, id);
    if i == |s| then [] else DeleteBackStates(s, i, ChainEnd(s, i), failing)
  }

  function DeleteChains(s: seq<Backup>, ids: seq<string>, failing: Failing): (seq<Backup>, bool)
    decreases |ids|
  {
    if ids == [] then (s, false)
    else
      var (r, raised) := DeleteChain(s, ids[0], failing);
      if raised then (r, true) else DeleteChains(r, ids[1..], failing)
  }

  function DeleteChainsStates(s: seq<Backup>, ids: seq<string>, failing: Failing): seq<seq<Backup>>
    decreases |ids|
  {
    if ids == [] then []
    else
      var (r, raised) := DeleteChain(s, ids[0], failing);
      DeleteChainStates(s, ids[0], failing) + if raised then [] else DeleteChainsStates(r, ids[1..], failing)
  }

  /** The full backups that are available, oldest first. */
  function Fulls(s: seq<Backup>): seq<string> {
    if s == [] then []
    else (if !s[0].isIncremental && s[0].status.Available? then [s[0].id] else []) + Fulls(s[1..])
  }

  /** Where a slice that stops at `stop` ends in a list of length `n`; negative stops count from the end. */
  function SliceStop(n: nat, stop: int): nat {
    if stop < 0 then Max(0, n + stop) else Min(stop, n)
  }

  function Excess(s: seq<Backup>, keep: int): seq<string> {
    var fulls := Fulls(s);
    if |fulls| <= keep then [] else fulls[..SliceStop(|fulls|, -keep)]
  }

  /** The available backups made at or before `t`, newest first. */
  function OlderThan(s: seq<Backup>, t: int): seq<string>
  {
    if s == [] then []
    else
      var n := |s| - 1;
      (if s[n].status.Available? && s[n].createdAt <= t then [s[n].id] else []) + OlderThan(s[..n], t)
  }

  function DeleteEach(s: seq<Backup>, ids: seq<string>, failing: Failing): (seq<Backup>, bool)
    decreases |ids|
  {
    if ids == [] then (s, false)
    else
      var i := Position(s, ids[0]);
      if i == |s| then (s, true)
      else if ids[0] in failing then (Marked(s, i, failing[ids[0]]), true)
      else DeleteEach(Without(s, i), ids[1..], failing)
  }

  function DeleteEachStates(s: seq<Backup>, ids: seq<string>, failing: Failing): seq<seq<Backup>>
    decreases |ids|
  {
    if ids == [] then []
    else
      var i := Position(s, ids[0]);
      if i == |s| then [s]
      else if ids[0] in failing then [Marked(s, i, failing[ids[0]])]
      else [Without(s, i)] + DeleteEachStates(Without(s, i), ids[1..], failing)
  }

  lemma DeleteBackStep(s: seq<Backup>, i: nat, k: nat, failing: Failing)
    requires i <= k < |s|
    ensures var (r, raised) := DeleteAt(s, k, failing);
            && DeleteBack(s, i, k + 1, failing) == (if raised then (r, true) else DeleteBack(r, i, k, failing))
            && DeleteBackStates(s, i, k + 1, failing)
               == if raised then [r] else [r] + DeleteBackStates(r, i, k, failing)
  {
  }

  /** Deleting from `j` down and, with more behind it, from `k` down end alike and leave the same behind. */
  predicate GoesOn(s: seq<Backup>, seen: seq<seq<Backup>>, j: nat,
                   r: seq<Backup>, more: seq<seq<Backup>>, k: nat, i: nat, failing: Failing)
  {
    && i <= j <= |s| && i <= k <= |r|
    && DeleteBack(s, i, j, failing) == DeleteBack(r, i, k, failing)
    && seen + DeleteBackStates(s, i, j, failing) == more + DeleteBackStates(r, i, k, failing)
  }

  lemma OneMore(s: seq<Backup>, seen: seq<seq<Backup>>, j: nat,
                r: seq<Backup>, more: seq<seq<Backup>>, k: nat, r': seq<Backup>, i: nat, failing: Failing)
    requires GoesOn(s, seen, j, r, more, k + 1, i, failing) && i <= k <= |r'|
    requires DeleteBack(r, i, k + 1, failing) == DeleteBack(r', i, k, failing)
    requires DeleteBackStates(r, i, k + 1, failing) == [r'] + DeleteBackStates(r', i, k, failing)
    ensures GoesOn(s, seen, j, r', more + [r'], k, i, failing)
  {
    Associative(more, [r'], DeleteBackStates(r', i, k, failing));
  }

  // ---------- what one deletion does to the links ----------

  lemma PositionOf(s: seq<Backup>, i: nat)
    requires Chronological(s) && i < |s|
    ensures Position(s, s[i].id) == i
  {
    SameId(s, Position(s, s[i].id), i);
  }

  lemma SameId(s: seq<Backup>, i: nat, j: nat)
    requires Chronological(s) && i < |s| && j < |s| && s[i].id == s[j].id
    ensures i == j
  {
    assert InOrder(s, i, j) && InOrder(s, j, i);
  }

  lemma WithoutKeepsOrder(s: seq<Backup>, i: nat)
    requires Chronological(s) && i < |s|
    ensures Chronological(Without(s, i))
    ensures forall k :: 0 <= k < |s| - 1 ==> Without(s, i)[k].id != s[i].id
  {
    var r := Without(s, i);
    forall a, b ensures InOrder(r, a, b) {
      if 0 <= a < b < |r| {
        assert r[a] == s[if a < i then a else a + 1];
        assert r[b] == s[if b < i then b else b + 1];
        assert InOrder(s, if a < i then a else a + 1, if b < i then b else b + 1);
      }
    }
    forall k | 0 <= k < |r| ensures r[k].id != s[i].id {
      assert r[k] == s[if k < i then k else k + 1];
      assert InOrder(s, k, i) && InOrder(s, i, k + 1);
    }
  }

  /** Deleting one backup leaves the links whole exactly when no incremental stands right after it. */
  lemma DeletionKeepsLinksIff(s: seq<Backup>, i: nat)
    requires History(s) && i < |s|
    ensures Chronological(Without(s, i))
    ensures i + 1 == |s| || !s[i + 1].isIncremental <==> Linked(Without(s, i))
    ensures i + 1 == |s| || !s[i + 1].isIncremental <==> NoOrphan(Without(s, i))
  {
    var r := Without(s, i);
    WithoutKeepsOrder(s, i);
    if i + 1 < |s| && s[i + 1].isIncremental {
      assert r[i] == s[i + 1] && LinkedAt(s, i + 1);
      assert i > 0 ==> r[i - 1].id != r[i].parent;
      assert !LinkedAt(r, i);
    } else {
      forall k ensures LinkedAt(r, k) {
        if 0 <= k < |r| {
          assert r[k] == if k < i then s[k] else s[k + 1];
          assert LinkedAt(s, k) && LinkedAt(s, k + 1);
        }
      }
      LinkedHasNoOrphan(r);
    }
  }

  lemma LinkedHasNoOrphan(s: seq<Backup>)
    requires Linked(s)
    ensures NoOrphan(s)
  {
    forall i | 0 <= i < |s| && s[i].isIncremental ensures exists k :: 0 <= k < |s| && s[k].id == s[i].parent {
      assert LinkedAt(s, i);
      assert s[i - 1].id == s[i].parent;
    }
  }

  lemma MarkingKeepsHistory(s: seq<Backup>, i: nat, status: Status)
    requires History(s) && i < |s|
    ensures History(Marked(s, i, status))
  {
    var r := Marked(s, i, status);
    forall k ensures LinkedAt(r, k) {
      assert LinkedAt(s, k);
    }
    forall a, b ensures InOrder(r, a, b) {
      assert InOrder(s, a, b);
    }
  }

  /** One attempt to delete position `i`. */
  function DeleteAt(s: seq<Backup>, i: nat, failing: Failing): (seq<Backup>, bool)
    requires i < |s|
  {
    if s[i].id in failing then (Marked(s, i, failing[s[i].id]), true) else (Without(s, i), false)
  }

  /** Position `i` has no incremental right after it. */
  predicate EndsChain(s: seq<Backup>, i: nat) {
    i < |s| && (i + 1 < |s| ==> !s[i + 1].isIncremental)
  }

  lemma DeleteAtKeeps(s: seq<Backup>, i: nat, failing: Failing)
    requires History(s) && EndsChain(s, i)
    ensures Position(s, s[i].id) == i
    ensures History(DeleteAt(s, i, failing).0)
    ensures var (r, raised) := DeleteAt(s, i, failing);
            forall k :: 0 <= k < i ==> r[k] == s[k]
  {
    PositionOf(s, i);
    DeletionKeepsLinksIff(s, i);
    if s[i].id in failing {
      MarkingKeepsHistory(s, i, failing[s[i].id]);
    }
  }

  // ---------- the deletions ----------

  class AdminOs {
    var backups: seq<Backup>
    /** The store after every deletion, and after every failure to delete. */
    ghost var trace: seq<seq<Backup>>

    constructor (history: seq<Backup>)
      requires History(history)
      ensures Valid() && backups == history && trace == []
    {
      backups, trace := history, [];
    }

    /** The store is a history, and so is every state a deletion left behind. */
    ghost predicate Valid()
      reads this
    {
      History(backups) && AllHistories(trace)
    }

    method DeleteSingleBackup(id: string, failing: Failing) returns (raised: bool)
      modifies this
      ensures var i := Position(old(backups), id);
              if i == |old(backups)| then raised && backups == old(backups)
              else (backups, raised) == DeleteAt(old(backups), i, failing)
      ensures trace == old(trace) + [backups]
      ensures old(Valid()) && EndsChain(old(backups), Position(old(backups), id)) ==> Valid()
    {
      var i := Position(backups, id);
      if Valid() && EndsChain(backups, i) {
        DeleteAtKeeps(backups, i, failing);
      }
      raised := i == |backups| || id in failing;
      if i < |backups| {
        backups := if id in failing then Marked(backups, i, failing[id]) else Without(backups, i);
      }
      trace := trace + [backups];
    }

    method DeleteBackupAndDependents(id: string, failing: Failing) returns (raised: bool)
      requires Valid()
      modifies this
      ensures (backups, raised) == DeleteChain(old(backups), id, failing)
      ensures Valid() && trace == old(trace) + DeleteChainStates(old(backups), id, failing)
    {
      var sorted := backups;
      var target := 0;
      while target < |sorted| && sorted[target].id != id
        invariant 0 <= target <= |sorted|
        invariant forall k :: 0 <= k < target ==> sorted[k].id != id
      {
        target := target + 1;
      }
      if target == |sorted| {
        assert trace + [] == trace;
        return false;
      }
      var dependents := FindDependents(sorted, target);
      raised := DeleteDependents(dependents, target, failing);
      if raised {
        return;
      }
      PositionOf(backups, target);
      DeleteBackStep(backups, target, target, failing);
      raised := DeleteSingleBackup(id, failing);
      assert [backups] + [] == [backups];
    }

    /** The incrementals right after a backup. */
    method FindDependents(sorted: seq<Backup>, target: nat) returns (dependents: seq<Backup>)
      requires target < |sorted|
      ensures target + 1 + |dependents| == ChainEnd(sorted, target)
      ensures forall k :: 0 <= k < |dependents| ==> dependents[k] == sorted[target + 1 + k]
    {
      dependents := [];
      var next := target + 1;
      while next < |sorted| && sorted[next].isIncremental
        invariant target < next <= |sorted|
        invariant |dependents| == next - target - 1
        invariant forall k :: 0 <= k < |dependents| ==> dependents[k] == sorted[target + 1 + k]
        invariant ChainEnd(sorted, target) == ChainEnd(sorted, next - 1)
      {
        dependents := dependents + [sorted[next]];
        next := next + 1;
      }
    }

    /** The loop over the dependents, newest first; they stand right after position `target`. */
    method DeleteDependents(dependents: seq<Backup>, target: nat, failing: Failing) returns (raised: bool)
      requires Valid() && target + 1 + |dependents| <= |backups|
      requires forall k :: 0 <= k < |dependents| ==> dependents[k] == backups[target + 1 + k]
      requires EndsChain(backups, target + |dependents|)
      modifies this
      ensures Valid()
      ensures var j := target + 1 + |dependents|;
              if raised then
                && (backups, true) == DeleteBack(old(backups), target, j, failing)
                && trace == old(trace) + DeleteBackStates(old(backups), target, j, failing)
              else
                && EndsChain(backups, target) && backups[target] == old(backups)[target]
                && GoesOn(old(backups), old(trace), j, backups, trace, target + 1, target, failing)
    {
      raised := false;
      var left := |dependents|;
      while left > 0
        invariant 0 <= left <= |dependents| && EndsChain(backups, target + left) && !raised
        invariant Valid()
        invariant forall k :: 0 <= k <= target + left ==> backups[k] == old(backups)[k]
        invariant GoesOn(old(backups), old(trace), target + 1 + |dependents|,
                         backups, trace, target + 1 + left, target, failing)
      {
        left := left - 1;
        assert dependents[left] == old(backups)[target + 1 + left];
        raised := DeleteNewest(dependents[left], target, target + 1 + left, failing,
                               old(backups), old(trace), target + 1 + |dependents|);
        if raised {
          return;
        }
      }
    }

    /** One turn of that loop, where position `last` is the newest dependent left and `s` was the store at first. */
    method DeleteNewest(dependent: Backup, ghost target: nat, ghost last: nat, failing: Failing,
                        ghost s: seq<Backup>, ghost seen: seq<seq<Backup>>, ghost j: nat)
      returns (raised: bool)
      requires Valid() && target < last && EndsChain(backups, last) && backups[last] == dependent
      requires GoesOn(s, seen, j, backups, trace, last + 1, target, failing)
      modifies this
      ensures Valid()
      ensures raised ==> (backups, true) == DeleteBack(s, target, j, failing)
                         && trace == seen + DeleteBackStates(s, target, j, failing)
      ensures !raised ==>
                && EndsChain(backups, last - 1)
                && (forall k :: 0 <= k < last ==> backups[k] == old(backups)[k])
                && GoesOn(s, seen, j, backups, trace, last, target, failing)
    {
      PositionOf(backups, last);
      DeleteBackStep(backups, target, last, failing);
      ghost var r, more := backups, trace;
      raised := DeleteSingleBackup(dependent.id, failing);
      if !raised {
        OneMore(s, seen, j, r, more, last, backups, target, failing);
      }
    }

    /** Keeps the last `keepNumber` full backups and what depends on them. */
    method DeleteOffLimitFullBackup(keepNumber: int, failing: Failing) returns (raised: bool)
      requires Valid()
      modifies this
      ensures (backups, raised) == DeleteChains(old(backups), Excess(old(backups), keepNumber), failing)
      ensures Valid()
      ensures trace == old(trace) + DeleteChainsStates(old(backups), Excess(old(backups), keepNumber), failing)
    {
      var fullBackups := Fulls(backups);
      if |fullBackups| <= keepNumber {
        assert trace + [] == trace;
        return false;
      }
      var excess := fullBackups[..SliceStop(|fullBackups|, -keepNumber)];
      raised := false;
      var i := 0;
      while i < |excess|
        invariant 0 <= i <= |excess| && !raised
        invariant Valid()
        invariant DeleteChains(old(backups), excess, failing) == DeleteChains(backups, excess[i..], failing)
        invariant old(trace) + DeleteChainsStates(old(backups), excess, failing)
                  == trace + DeleteChainsStates(backups, excess[i..], failing)
      {
        ghost var s, before, rest := backups, trace, excess[i..];
        ghost var states := DeleteChainStates(s, excess[i], failing);
        assert rest[0] == excess[i] && rest[1..] == excess[i + 1..];
        raised := DeleteBackupAndDependents(excess[i], failing);
        if raised {
          assert states + [] == states;
          return;
        }
        Associative(before, states, DeleteChainsStates(backups, rest[1..], failing));
        i := i + 1;
      }
      assert trace + [] == trace;
    }

    /** Deletes every available backup made at or before `t`, newest first. */
    method RemoveOlderThan(t: int, failing: Failing) returns (raised: bool)
      requires Chronological(backups)
      modifies this
      ensures (backups, raised) == DeleteEach(old(backups), OlderThan(old(backups), t), failing)
      ensures trace == old(trace) + DeleteEachStates(old(backups), OlderThan(old(backups), t), failing)
    {
      var older := OlderThan(backups, t);
      raised := false;
      var i := 0;
      while i < |older|
        invariant 0 <= i <= |older| && !raised
        invariant DeleteEach(old(backups), older, failing) == DeleteEach(backups, older[i..], failing)
        invariant old(trace) + DeleteEachStates(old(backups), older, failing)
                  == trace + DeleteEachStates(backups, older[i..], failing)
      {
        ghost var before, rest := trace, older[i..];
        assert rest[0] == older[i] && rest[1..] == older[i + 1..];
        raised := DeleteSingleBackup(older[i], failing);
        if raised {
          return;
        }
        Associative(before, [backups], DeleteEachStates(backups, rest[1..], failing));
        i := i + 1;
      }
      assert trace + [] == trace;
    }
  }

  // ---------- what retention leaves ----------

  /** The full backup that an incremental goes back to. */
  function HeadOf(s: seq<Backup>, i: nat): (h: nat)
    requires i < |s|
    ensures h <= i && (h == 0 || !s[h].isIncremental)
    ensures forall k :: h < k <= i ==> s[k].isIncremental
  {
    if i == 0 || !s[i].isIncremental then i else HeadOf(s, i - 1)
  }

  /** Among the first `n` backups, those that do not go back to one of `ids`, in order. */
  function KeepTo(s: seq<Backup>, ids: seq<string>, n: nat): seq<Backup>
    requires n <= |s|
  {
    if n == 0 then []
    else KeepTo(s, ids, n - 1) + if s[HeadOf(s, n - 1)].id in ids then [] else [s[n - 1]]
  }

  lemma {:induction false} DeleteBackWhole(s: seq<Backup>, i: nat, j: nat)
    requires i <= j <= |s|
    ensures DeleteBack(s, i, j, map[]) == (s[..i] + s[j..], false)
    decreases j
  {
    if i == j {
      assert s[..i] + s[i..] == s;
    } else {
      DeleteBackWhole(Without(s, j - 1), i, j - 1);
      assert Without(s, j - 1)[..i] == s[..i];
      assert Without(s, j - 1)[j - 1..] == s[j..];
    }
  }

  lemma {:induction false} HeadBetween(s: seq<Backup>, i: nat, k: nat)
    requires i <= k < |s| && (i == 0 || !s[i].isIncremental)
    requires forall m :: i < m <= k ==> s[m].isIncremental
    ensures HeadOf(s, k) == i
  {
  }

  lemma InChainIff(s: seq<Backup>, i: nat, k: nat)
    requires History(s) && i < |s| && !s[i].isIncremental && k < |s|
    ensures s[HeadOf(s, k)].id in [s[i].id] <==> i <= k < ChainEnd(s, i)
  {
    var h := HeadOf(s, k);
    if s[h].id == s[i].id {
      SameId(s, h, i);
    }
    if i <= k < ChainEnd(s, i) {
      HeadBetween(s, i, k);
    }
  }

  lemma {:induction false} KeepsBeforeChain(s: seq<Backup>, i: nat, n: nat)
    requires History(s) && i < |s| && !s[i].isIncremental && n <= i
    ensures KeepTo(s, [s[i].id], n) == s[..n]
  {
    if n > 0 {
      KeepsBeforeChain(s, i, n - 1);
      InChainIff(s, i, n - 1);
      assert s[..n - 1] + [s[n - 1]] == s[..n];
    }
  }

  lemma {:induction false} KeepsNoneOfChain(s: seq<Backup>, i: nat, n: nat)
    requires History(s) && i < |s| && !s[i].isIncremental && i <= n <= ChainEnd(s, i)
    ensures KeepTo(s, [s[i].id], n) == s[..i]
  {
    if n == i {
      KeepsBeforeChain(s, i, i);
    } else {
      KeepsNoneOfChain(s, i, n - 1);
      InChainIff(s, i, n - 1);
    }
  }

  lemma {:induction false} KeepsAfterChain(s: seq<Backup>, i: nat, n: nat)
    requires History(s) && i < |s| && !s[i].isIncremental && ChainEnd(s, i) <= n <= |s|
    ensures KeepTo(s, [s[i].id], n) == s[..i] + s[ChainEnd(s, i)..n]
  {
    var j := ChainEnd(s, i);
    if n == j {
      KeepsNoneOfChain(s, i, j);
      assert s[j..j] == [];
    } else {
      KeepsAfterChain(s, i, n - 1);
      InChainIff(s, i, n - 1);
      assert s[j..n - 1] + [s[n - 1]] == s[j..n];
    }
  }

  lemma DeleteChainKeeps(s: seq<Backup>, i: nat)
    requires History(s) && i < |s| && !s[i].isIncremental
    ensures DeleteChain(s, s[i].id, map[]) == (KeepTo(s, [s[i].id], |s|), false)
  {
    PositionOf(s, i);
    var j := ChainEnd(s, i);
    DeleteBackWhole(s, i, j);
    KeepsAfterChain(s, i, |s|);
    assert s[j..|s|] == s[j..];
  }

  lemma {:induction false} KeepToGrows(s: seq<Backup>, ids: seq<string>, n: nat, m: nat)
    requires n <= m <= |s|
    ensures KeepTo(s, ids, n) <= KeepTo(s, ids, m)
    decreases m
  {
    if n < m {
      KeepToGrows(s, ids, n, m - 1);
    }
  }

  /** A kept backup keeps its head. */
  lemma {:induction false} KeptHead(s: seq<Backup>, ids: seq<string>, n: nat)
    requires Linked(s) && 0 < n <= |s| && s[HeadOf(s, n - 1)].id !in ids
    ensures var r, all := KeepTo(s, ids, n), KeepTo(s, ids, |s|);
            && 0 < |r| <= |all| && all[|r| - 1] == s[n - 1]
            && all[HeadOf(all, |r| - 1)] == s[HeadOf(s, n - 1)]
  {
    KeepToGrows(s, ids, n, |s|);
    if s[n - 1].isIncremental {
      assert LinkedAt(s, n - 1);
      KeptHead(s, ids, n - 1);
    }
  }

  lemma {:induction false} KeepTwice(s: seq<Backup>, a: seq<string>, b: seq<string>, n: nat)
    requires Linked(s) && n <= |s|
    ensures var all, r := KeepTo(s, a, |s|), KeepTo(s, a, n);
            r <= all && KeepTo(all, b, |r|) == KeepTo(s, a + b, n)
  {
    KeepToGrows(s, a, n, |s|);
    if n > 0 {
      KeepTwice(s, a, b, n - 1);
      var head := s[HeadOf(s, n - 1)].id;
      KeepNext(s, a, n);
      KeepNext(s, a + b, n);
      if head !in a {
        var all, r := KeepTo(s, a, |s|), KeepTo(s, a, n);
        KeptHead(s, a, n);
        KeepNext(all, b, |r|);
        assert r == KeepTo(s, a, n - 1) + [s[n - 1]];
      }
    }
  }

  lemma KeepNext(s: seq<Backup>, ids: seq<string>, n: nat)
    requires 0 < n <= |s|
    ensures KeepTo(s, ids, n)
            == KeepTo(s, ids, n - 1) + if s[HeadOf(s, n - 1)].id in ids then [] else [s[n - 1]]
  {
  }

  lemma {:induction false} DeleteBackKeeps(s: seq<Backup>, i: nat, j: nat, failing: Failing)
    requires History(s) && i <= j <= |s| && (j < |s| ==> !s[j].isIncremental)
    ensures History(DeleteBack(s, i, j, failing).0)
    decreases j
  {
    if i < j {
      DeleteAtKeeps(s, j - 1, failing);
      if s[j - 1].id !in failing {
        DeleteBackKeeps(Without(s, j - 1), i, j - 1, failing);
      }
    }
  }

  /** `ids` name full backups, or backups that are gone. */
  predicate NameFulls(s: seq<Backup>, ids: seq<string>) {
    forall k :: 0 <= k < |s| && s[k].id in ids ==> !s[k].isIncremental
  }

  lemma {:induction false} KeepToMembers(s: seq<Backup>, ids: seq<string>, n: nat)
    requires n <= |s|
    ensures forall b :: b in KeepTo(s, ids, n) ==> b in s
  {
    if n > 0 {
      KeepToMembers(s, ids, n - 1);
    }
  }

  lemma {:induction false} NothingNamed(s: seq<Backup>, id: string, n: nat)
    requires n <= |s| && forall k :: 0 <= k < |s| ==> s[k].id != id
    ensures KeepTo(s, [id], n) == s[..n]
  {
    if n > 0 {
      NothingNamed(s, id, n - 1);
      assert s[..n - 1] + [s[n - 1]] == s[..n];
    }
  }

  lemma OneChain(s: seq<Backup>, id: string)
    requires History(s) && NameFulls(s, [id])
    ensures DeleteChain(s, id, map[]) == (KeepTo(s, [id], |s|), false)
    ensures History(KeepTo(s, [id], |s|))
  {
    var i := Position(s, id);
    if i < |s| {
      DeleteChainKeeps(s, i);
      DeleteBackKeeps(s, i, ChainEnd(s, i), map[]);
    } else {
      NothingNamed(s, id, |s|);
      assert s[..|s|] == s;
    }
  }

  /** Deleting the chains of full backups leaves exactly the backups that go back to another full one. */
  lemma {:induction false} ChainsAreDeleted(s: seq<Backup>, ids: seq<string>)
    requires History(s) && NameFulls(s, ids)
    ensures DeleteChains(s, ids, map[]) == (KeepTo(s, ids, |s|), false)
    decreases |ids|
  {
    if ids == [] {
      KeepAll(s, |s|);
      assert s[..|s|] == s;
    } else {
      OneChain(s, ids[0]);
      var r := KeepTo(s, [ids[0]], |s|);
      KeepToMembers(s, [ids[0]], |s|);
      forall k | 0 <= k < |r| && r[k].id in ids[1..] ensures !r[k].isIncremental {
        assert r[k] in s;
      }
      ChainsAreDeleted(r, ids[1..]);
      KeepTwice(s, [ids[0]], ids[1..], |s|);
      assert [ids[0]] + ids[1..] == ids;
    }
  }

  lemma {:induction false} KeepAll(s: seq<Backup>, n: nat)
    requires n <= |s|
    ensures KeepTo(s, [], n) == s[..n]
  {
    if n > 0 {
      KeepAll(s, n - 1);
      assert s[..n - 1] + [s[n - 1]] == s[..n];
    }
  }

  lemma {:induction false} FullsAreFull(s: seq<Backup>, id: string)
    requires id in Fulls(s)
    ensures exists k :: 0 <= k < |s| && s[k].id == id && !s[k].isIncremental
  {
    if !s[0].isIncremental && s[0].status.Available? && s[0].id == id {
    } else {
      FullsAreFull(s[1..], id);
      var k :| 0 <= k < |s[1..]| && s[1..][k].id == id && !s[1..][k].isIncremental;
      assert s[k + 1].id == id;
    }
  }

  /**
   * Retention without a failure, whatever the number to keep and whatever the statuses: what stays are
   * exactly the backups that do not go back to one of the oldest surplus available full backups.
   */
  lemma RetentionDeletesWholeChains(s: seq<Backup>, keep: int)
    requires History(s)
    ensures DeleteChains(s, Excess(s, keep), map[]) == (KeepTo(s, Excess(s, keep), |s|), false)
  {
    var ids := Excess(s, keep);
    forall k | 0 <= k < |s| && s[k].id in ids ensures !s[k].isIncremental {
      FullsAreFull(s, s[k].id);
      var m :| 0 <= m < |s| && s[m].id == s[k].id && !s[m].isIncremental;
      SameId(s, m, k);
    }
    ChainsAreDeleted(s, Excess(s, keep));
  }

  predicate FullsAvailable(s: seq<Backup>) {
    forall k :: 0 <= k < |s| && !s[k].isIncremental ==> s[k].status.Available?
  }

  lemma {:induction false} IncrementalsAddNoFull(s: seq<Backup>, i: nat)
    requires i <= |s| && forall k :: 0 <= k < i ==> s[k].isIncremental
    ensures Fulls(s) == Fulls(s[i..])
  {
    if i == 0 {
      assert s[0..] == s;
    } else {
      IncrementalsAddNoFull(s[1..], i - 1);
      assert s[1..][i - 1..] == s[i..];
    }
  }

  lemma FirstChain(s: seq<Backup>)
    requires History(s) && FullsAvailable(s) && s != []
    ensures var j := ChainEnd(s, 0);
            Fulls(s) == [s[0].id] + Fulls(s[j..]) && DeleteChain(s, s[0].id, map[]) == (s[j..], false)
  {
    var j := ChainEnd(s, 0);
    assert LinkedAt(s, 0);
    IncrementalsAddNoFull(s[1..], j - 1);
    assert s[1..][j - 1..] == s[j..];
    PositionOf(s, 0);
    DeleteBackWhole(s, 0, j);
    assert s[..0] + s[j..] == s[j..];
  }

  lemma SuffixKeeps(s: seq<Backup>, j: nat)
    requires History(s) && FullsAvailable(s) && j <= |s| && (j < |s| ==> !s[j].isIncremental)
    ensures History(s[j..]) && FullsAvailable(s[j..])
  {
    forall a, b ensures InOrder(s[j..], a, b) {
      assert InOrder(s, j + a, j + b);
    }
    forall k ensures LinkedAt(s[j..], k) {
      assert LinkedAt(s, j + k);
    }
  }

  /** `ids` are the first `m` full backups, and `left` the others. */
  predicate SplitsFulls(s: seq<Backup>, m: nat, ids: seq<string>, left: seq<string>) {
    Fulls(s) == ids + left && |ids| == m
  }

  lemma FirstOfOldest(first: string, fulls: seq<string>, ids: seq<string>, left: seq<string>)
    requires [first] + fulls == ids + left && ids != []
    ensures ids[0] == first && fulls == ids[1..] + left
  {
    assert ([first] + fulls)[1..] == fulls && (ids + left)[1..] == ids[1..] + left;
    assert (ids + left)[0] == ids[0];
  }

  lemma DeleteFirstOf(s: seq<Backup>, ids: seq<string>, rest: seq<Backup>)
    requires ids != [] && DeleteChain(s, ids[0], map[]) == (rest, false)
    ensures DeleteChains(s, ids, map[]) == DeleteChains(rest, ids[1..], map[])
  {
  }

  /** The first of them begins the history; behind its chain come the others. */
  lemma OldestChainGoes(s: seq<Backup>, m: nat, ids: seq<string>, left: seq<string>)
    requires History(s) && FullsAvailable(s) && SplitsFulls(s, m, ids, left) && m > 0
    ensures s != []
    ensures var rest := s[ChainEnd(s, 0)..];
            && History(rest) && FullsAvailable(rest) && SplitsFulls(rest, m - 1, ids[1..], left)
            && DeleteChains(s, ids, map[]) == DeleteChains(rest, ids[1..], map[])
  {
    var rest := s[ChainEnd(s, 0)..];
    FirstChain(s);
    SuffixKeeps(s, ChainEnd(s, 0));
    FirstOfOldest(s[0].id, Fulls(rest), ids, left);
    DeleteFirstOf(s, ids, rest);
  }

  /** `r` is the history cut at `p`, without a failure, and `left` are the full backups from there. */
  predicate CutsAt(s: seq<Backup>, r: (seq<Backup>, bool), left: seq<string>, p: nat) {
    p <= |s| && (p < |s| ==> !s[p].isIncremental) && r == (s[p..], false) && Fulls(s[p..]) == left
  }

  lemma NoChainGoes(s: seq<Backup>)
    requires Linked(s)
    ensures CutsAt(s, (s, false), Fulls(s), 0)
  {
    assert s[0..] == s && LinkedAt(s, 0);
  }

  lemma OneMoreChainGoes(s: seq<Backup>, r: (seq<Backup>, bool), left: seq<string>, j: nat, q: nat)
    requires j <= |s| && CutsAt(s[j..], r, left, q)
    ensures CutsAt(s, r, left, j + q)
  {
    assert s[j + q..] == s[j..][q..];
    assert j + q < |s| ==> s[j + q] == s[j..][q];
  }

  lemma {:induction false} OldestChainsGo(s: seq<Backup>, m: nat, ids: seq<string>, left: seq<string>)
    returns (p: nat)
    requires History(s) && FullsAvailable(s) && SplitsFulls(s, m, ids, left)
    ensures CutsAt(s, DeleteChains(s, ids, map[]), left, p)
    decreases m
  {
    if m == 0 {
      p := 0;
      assert ids == [] && [] + left == left;
      NoChainGoes(s);
    } else {
      OldestChainGoes(s, m, ids, left);
      var j := ChainEnd(s, 0);
      var q := OldestChainsGo(s[j..], m - 1, ids[1..], left);
      OneMoreChainGoes(s, DeleteChains(s, ids, map[]), left, j, q);
      p := j + q;
    }
  }

  /**
   * With every full backup available, keeping k >= 1 leaves everything if there are no more than k full
   * backups, and otherwise exactly the history from the k-th last full backup on.
   */
  lemma RetentionKeepsSuffix(s: seq<Backup>, keep: int) returns (p: nat)
    requires History(s) && FullsAvailable(s) && keep >= 1
    ensures p <= |s| && DeleteChains(s, Excess(s, keep), map[]) == (s[p..], false)
    ensures |Fulls(s)| <= keep ==> p == 0
    ensures |Fulls(s)| > keep ==> p < |s| && !s[p].isIncremental && |Fulls(s[p..])| == keep
  {
    ExcessIsOldest(s, keep);
    if |Fulls(s)| <= keep {
      p := 0;
      assert s[0..] == s;
    } else {
      p := SurplusGoes(s, keep);
    }
  }

  lemma SurplusGoes(s: seq<Backup>, keep: int) returns (p: nat)
    requires History(s) && FullsAvailable(s)
    ensures p <= |s| && (p < |s| ==> !s[p].isIncremental)
    ensures DeleteChains(s, Excess(s, keep), map[]) == (s[p..], false)
    ensures |Fulls(s[p..])| == |Fulls(s)| - |Excess(s, keep)|
  {
    var m := |Excess(s, keep)|;
    ExcessIsOldest(s, keep);
    p := OldestChainsGo(s, m, Excess(s, keep), Fulls(s)[m..]);
  }

  /**
   * How many full backups remain for every number to keep. Zero keeps them all, because a slice up to
   * minus zero is empty; a negative number deletes that many of the oldest instead.
   */
  lemma FullsLeft(s: seq<Backup>, keep: int) returns (p: nat)
    requires History(s) && FullsAvailable(s)
    ensures p <= |s| && DeleteChains(s, Excess(s, keep), map[]) == (s[p..], false)
    ensures |Fulls(s[p..])| == if keep >= 1 then Min(|Fulls(s)|, keep)
                               else if keep == 0 then |Fulls(s)|
                               else Max(0, |Fulls(s)| + keep)
  {
    ExcessIsOldest(s, keep);
    p := SurplusGoes(s, keep);
  }

  lemma ExcessIsOldest(s: seq<Backup>, keep: int)
    ensures var m := |Excess(s, keep)|;
            && m <= |Fulls(s)| && Excess(s, keep) == Fulls(s)[..m]
            && |Fulls(s)| - m == if keep >= 1 then Min(|Fulls(s)|, keep)
                                 else if keep == 0 then |Fulls(s)|
                                 else Max(0, |Fulls(s)| + keep)
  {
  }

  // ---------- a chain of which some deletions fail ----------

  lemma {:induction false} AllDeleted(s: seq<Backup>, i: nat, j: nat, failing: Failing)
    requires i <= j <= |s| && forall k :: i <= k < j ==> s[k].id !in failing
    ensures DeleteBack(s, i, j, failing) == (s[..i] + s[j..], false)
    decreases j
  {
    if i < j {
      AllDeleted(Without(s, j - 1), i, j - 1, failing);
      assert Without(s, j - 1)[..i] == s[..i] && Without(s, j - 1)[j - 1..] == s[j..];
    } else {
      assert s[..i] + s[i..] == s;
    }
  }

  lemma {:induction false} DeletedUpTo(s: seq<Backup>, i: nat, m: nat, j: nat, failing: Failing)
    requires i <= m < j <= |s| && s[m].id in failing && forall k :: m < k < j ==> s[k].id !in failing
    ensures DeleteBack(s, i, j, failing) == (s[..m] + [s[m].(status := failing[s[m].id])] + s[j..], true)
    decreases j
  {
    if m == j - 1 {
      assert Marked(s, m, failing[s[m].id]) == s[..m] + [s[m].(status := failing[s[m].id])] + s[j..];
    } else {
      var r := Without(s, j - 1);
      DeletedUpTo(r, i, m, j - 1, failing);
      assert r[..m] == s[..m] && r[j - 1..] == s[j..];
    }
  }

  /** No deletion fails among the positions from `i` to `j`. */
  predicate NoneFails(s: seq<Backup>, i: nat, j: nat, failing: Failing)
    requires j <= |s|
  {
    forall k :: i <= k < j ==> s[k].id !in failing
  }

  /** The deletion at `m` fails, and none of a newer backup of the chain. */
  predicate NewestFails(s: seq<Backup>, i: nat, j: nat, failing: Failing, m: nat)
    requires j <= |s|
  {
    i <= m < j && s[m].id in failing && NoneFails(s, m + 1, j, failing)
  }

  /** The list without the chain's backups behind `m`, which carries the status of its failure. */
  function StoppedAt(s: seq<Backup>, m: nat, j: nat, failing: Failing): seq<Backup>
    requires m < |s| && j <= |s| && s[m].id in failing
  {
    s[..m] + [s[m].(status := failing[s[m].id])] + s[j..]
  }

  lemma BackDeletionLeaves(s: seq<Backup>, i: nat, j: nat, failing: Failing)
    requires i <= j <= |s|
    ensures var r := DeleteBack(s, i, j, failing);
            && (r.1 <==> !NoneFails(s, i, j, failing))
            && (!r.1 ==> r.0 == s[..i] + s[j..])
            && (forall m: nat :: NewestFails(s, i, j, failing, m) ==> r.0 == StoppedAt(s, m, j, failing))
  {
    if NoneFails(s, i, j, failing) {
      AllDeleted(s, i, j, failing);
    } else {
      var m := NewestFailing(s, i, j, failing);
      DeletedUpTo(s, i, m, j, failing);
      forall k: nat | NewestFails(s, i, j, failing, k) ensures k == m {
      }
    }
  }

  /**
   * Deleting a backup and its dependents raises exactly when the deletion of one of them fails. Without that
   * they are gone and nothing else is. With it, those newer than the newest that fails are gone, that one
   * carries the status of the failure, and all others are untouched.
   */
  lemma ChainDeletionLeaves(s: seq<Backup>, i: nat, failing: Failing)
    requires Chronological(s) && i < |s|
    ensures var j, r := ChainEnd(s, i), DeleteChain(s, s[i].id, failing);
            && (r.1 <==> !NoneFails(s, i, j, failing))
            && (!r.1 ==> r.0 == s[..i] + s[j..])
            && (forall m: nat :: NewestFails(s, i, j, failing, m) ==> r.0 == StoppedAt(s, m, j, failing))
  {
    PositionOf(s, i);
    BackDeletionLeaves(s, i, ChainEnd(s, i), failing);
  }

  lemma {:induction false} NewestFailing(s: seq<Backup>, i: nat, j: nat, failing: Failing) returns (m: nat)
    requires i <= j <= |s| && !NoneFails(s, i, j, failing)
    ensures NewestFails(s, i, j, failing, m)
    decreases j
  {
    if s[j - 1].id in failing {
      m := j - 1;
    } else {
      m := NewestFailing(s, i, j - 1, failing);
    }
  }

  // ---------- a retention stops at its first failure ----------

  /**
   * Without a failure a retention ends as if none were possible. With one there is a first chain with a backup
   * whose deletion fails: the chains before it are gone as if none were possible, and those behind it are not
   * looked at.
   */
  lemma {:induction false} RetentionStops(s: seq<Backup>, ids: seq<string>, failing: Failing) returns (c: nat)
    ensures var r := DeleteChains(s, ids, failing);
            if !r.1 then r == DeleteChains(s, ids, map[])
            else
              && c < |ids|
              && var before := DeleteChains(s, ids[..c], map[]);
                 !before.1 && r == DeleteChain(before.0, ids[c], failing)
    decreases |ids|
  {
    c := 0;
    if ids != [] {
      var (r, raised) := DeleteChain(s, ids[0], failing);
      if !raised {
        ChainWithoutFailure(s, ids[0], failing);
        c := RetentionStops(r, ids[1..], failing);
        if DeleteChains(s, ids, failing).1 {
          c := c + 1;
          assert ids[..c][1..] == ids[1..][..c - 1];
        }
      }
    }
  }

  /** A chain that goes without a failure goes as if none were possible. */
  lemma ChainWithoutFailure(s: seq<Backup>, id: string, failing: Failing)
    requires !DeleteChain(s, id, failing).1
    ensures DeleteChain(s, id, failing) == DeleteChain(s, id, map[])
  {
    var i := Position(s, id);
    if i < |s| {
      BackDeletionLeaves(s, i, ChainEnd(s, i), failing);
      AllDeleted(s, i, ChainEnd(s, i), failing);
      AllDeleted(s, i, ChainEnd(s, i), map[]);
    }
  }

  // ---------- removal by age ----------

  /** A removal by age spares what is newer, and what is not available. */
  predicate Spared(b: Backup, t: int) {
    !b.status.Available? || b.createdAt > t
  }

  function SparedOf(s: seq<Backup>, t: int): seq<Backup> {
    if s == [] then []
    else
      var n := |s| - 1;
      SparedOf(s[..n], t) + if Spared(s[n], t) then [s[n]] else []
  }

  lemma {:induction false} DeletesNewestFirst(s: seq<Backup>, tail: seq<Backup>, t: int)
    requires Chronological(s + tail)
    ensures DeleteEach(s + tail, OlderThan(s, t), map[]) == (SparedOf(s, t) + tail, false)
  {
    if s == [] {
      assert s + tail == tail && [] + tail == tail;
    } else {
      var n := |s| - 1;
      var x := s[n];
      assert s[..n] + ([x] + tail) == s + tail;
      if Spared(x, t) {
        assert OlderThan(s, t) == OlderThan(s[..n], t);
        DeletesNewestFirst(s[..n], [x] + tail, t);
        Associative(SparedOf(s[..n], t), [x], tail);
      } else {
        assert SparedOf(s, t) == SparedOf(s[..n], t);
        DeletesNext(s[..n], x, tail, OlderThan(s[..n], t));
        DeletesNewestFirst(s[..n], tail, t);
      }
    }
  }

  lemma DeletesNext(s: seq<Backup>, x: Backup, tail: seq<Backup>, ids: seq<string>)
    requires Chronological(s + ([x] + tail))
    ensures DeleteEach(s + ([x] + tail), [x.id] + ids, map[]) == DeleteEach(s + tail, ids, map[])
    ensures Chronological(s + tail)
  {
    var all := s + ([x] + tail);
    assert all[|s|] == x && Without(all, |s|) == s + tail;
    DeletesFirst(all, |s|, ids);
  }

  lemma DeletesFirst(s: seq<Backup>, i: nat, ids: seq<string>)
    requires Chronological(s) && i < |s|
    ensures DeleteEach(s, [s[i].id] + ids, map[]) == DeleteEach(Without(s, i), ids, map[])
    ensures Chronological(Without(s, i))
  {
    PositionOf(s, i);
    WithoutKeepsOrder(s, i);
    assert ([s[i].id] + ids)[1..] == ids;
  }

  lemma {:induction false} SparedMembers(s: seq<Backup>, t: int, b: Backup)
    ensures b in SparedOf(s, t) <==> b in s && Spared(b, t)
  {
    if s != [] {
      var n := |s| - 1;
      SparedMembers(s[..n], t, b);
      assert s == s[..n] + [s[n]];
    }
  }

  /** The position of the oldest backup newer than `t`, or the length of the list. */
  function FirstNewer(s: seq<Backup>, t: int): (p: nat)
    ensures p <= |s| && (p < |s| ==> s[p].createdAt > t)
    ensures forall k :: 0 <= k < p ==> s[k].createdAt <= t
  {
    if s == [] || s[0].createdAt > t then 0 else 1 + FirstNewer(s[1..], t)
  }

  lemma NewerFrom(s: seq<Backup>, t: int, i: nat)
    requires Chronological(s) && i < |s|
    ensures s[i].createdAt > t <==> i >= FirstNewer(s, t)
  {
    assert InOrder(s, FirstNewer(s, t), i);
  }

  /** An incremental that a removal by age spares, on a parent that it deletes. */
  predicate LosesParent(s: seq<Backup>, t: int, i: int) {
    && 0 < i < |s| && s[i].isIncremental
    && Spared(s[i], t) && !Spared(s[i - 1], t)
  }

  /** The same told from the oldest newer backup `p`: its own parent goes, or an unavailable older one's. */
  predicate CutOff(s: seq<Backup>, p: nat, i: int) {
    && 0 < i <= p && i < |s| && s[i].isIncremental
    && (i == p || !s[i].status.Available?) && s[i - 1].status.Available?
  }

  lemma LosesParentIff(s: seq<Backup>, t: int, i: int)
    requires Chronological(s)
    ensures LosesParent(s, t, i) <==> CutOff(s, FirstNewer(s, t), i)
  {
    if 0 < i < |s| {
      NewerFrom(s, t, i);
      NewerFrom(s, t, i - 1);
    }
  }

  lemma RemovalSpares(s: seq<Backup>, t: int)
    requires Chronological(s)
    ensures DeleteEach(s, OlderThan(s, t), map[]) == (SparedOf(s, t), false)
  {
    assert s + [] == s;
    DeletesNewestFirst(s, [], t);
    assert SparedOf(s, t) + [] == SparedOf(s, t);
  }

  /**
   * Removal by age looks at each backup alone. It leaves no incremental without its parent exactly when
   * neither the oldest newer backup nor any older one that is not available is an incremental on an
   * available parent.
   */
  lemma RemovalByAgeOrphansIff(s: seq<Backup>, t: int)
    requires History(s)
    ensures DeleteEach(s, OlderThan(s, t), map[]) == (SparedOf(s, t), false)
    ensures NoOrphan(SparedOf(s, t)) <==> forall i :: !CutOff(s, FirstNewer(s, t), i)
  {
    RemovalSpares(s, t);
    NoOrphanIffParentsSpared(s, t);
    var p := FirstNewer(s, t);
    if forall i :: !CutOff(s, p, i) {
      forall i ensures !LosesParent(s, t, i) {
        LosesParentIff(s, t, i);
      }
    } else {
      var i :| CutOff(s, p, i);
      LosesParentIff(s, t, i);
      assert LosesParent(s, t, i);
    }
  }

  predicate AllAvailable(s: seq<Backup>) {
    forall k :: 0 <= k < |s| ==> s[k].status.Available?
  }

  lemma CutOffAvailable(s: seq<Backup>, p: nat)
    requires Linked(s) && AllAvailable(s) && p <= |s|
    ensures (forall i :: !CutOff(s, p, i)) <==> p == |s| || !s[p].isIncremental
  {
    if p < |s| && s[p].isIncremental {
      assert LinkedAt(s, p);
      assert CutOff(s, p, p);
    }
  }

  /** With every backup available, the newer ones stay, and stay whole exactly when the oldest is a full one. */
  lemma RemovalByAgeIff(s: seq<Backup>, t: int)
    requires History(s) && AllAvailable(s)
    ensures var p := FirstNewer(s, t);
            && DeleteEach(s, OlderThan(s, t), map[]) == (s[p..], false)
            && (NoOrphan(s[p..]) <==> p == |s| || !s[p].isIncremental)
  {
    RemovalByAgeOrphansIff(s, t);
    SparedIsSuffix(s, t);
    CutOffAvailable(s, FirstNewer(s, t));
  }

  lemma SparedIsSuffix(s: seq<Backup>, t: int)
    requires Chronological(s) && AllAvailable(s)
    ensures SparedOf(s, t) == s[FirstNewer(s, t)..]
  {
    var p := FirstNewer(s, t);
    forall i: nat | p <= i < |s| ensures Spared(s[i], t) {
      NewerFrom(s, t, i);
    }
    assert s == s[..p] + s[p..];
    SparedTail(s[..p], s[p..], t);
    NoneSpared(s[..p], t);
    assert [] + s[p..] == s[p..];
  }

  lemma {:induction false} NoneSpared(s: seq<Backup>, t: int)
    requires forall b :: b in s ==> !Spared(b, t)
    ensures SparedOf(s, t) == []
  {
    if s != [] {
      NoneSpared(s[..|s| - 1], t);
    }
  }

  lemma {:induction false} SparedTail(s: seq<Backup>, tail: seq<Backup>, t: int)
    requires forall b :: b in tail ==> Spared(b, t)
    ensures SparedOf(s + tail, t) == SparedOf(s, t) + tail
  {
    if tail == [] {
      assert s + tail == s;
    } else {
      var n := |tail| - 1;
      SparedTail(s, tail[..n], t);
      AddLast(s, tail);
      SparedSnoc(s + tail[..n], tail[n], t);
      AddLast(SparedOf(s, t), tail);
    }
  }

  lemma AddLast(s: seq<Backup>, tail: seq<Backup>)
    requires tail != []
    ensures s + tail == (s + tail[..|tail| - 1]) + [tail[|tail| - 1]]
  {
  }

  lemma SparedSnoc(s: seq<Backup>, b: Backup, t: int)
    ensures SparedOf(s + [b], t) == SparedOf(s, t) + if Spared(b, t) then [b] else []
  {
    assert (s + [b])[..|s|] == s;
  }

  /** For every date: an incremental made after it, on a full backup made by then, is left alone. */
  lemma IncrementalOutlivesParent(t: int)
    ensures var full, inc := Backup("f", false, "", Available, t), Backup("i", true, "f", Available, t + 1);
            && History([full, inc]) && DeleteEach([full, inc], OlderThan([full, inc], t), map[]) == ([inc], false)
            && !NoOrphan([inc])
  {
    var full, inc := Backup("f", false, "", Available, t), Backup("i", true, "f", Available, t + 1);
    var s := [full, inc];
    forall i ensures LinkedAt(s, i) {
    }
    forall i, j ensures InOrder(s, i, j) {
      assert full.id[0] == 'f' && inc.id[0] == 'i';
    }
    RemovalByAgeIff(s, t);
    assert s[1..] == [inc];
  }

  lemma NoOrphanIffParentsSpared(s: seq<Backup>, t: int)
    requires History(s)
    ensures NoOrphan(SparedOf(s, t)) <==> forall i :: !LosesParent(s, t, i)
  {
    if NoOrphan(SparedOf(s, t)) {
      forall i ensures !LosesParent(s, t, i) {
        if 0 < i < |s| && s[i].isIncremental && Spared(s[i], t) {
          ParentIsSpared(s, t, i);
        }
      }
    } else if forall i :: !LosesParent(s, t, i) {
      SparedParentsSuffice(s, t);
    }
  }

  lemma ParentIsSpared(s: seq<Backup>, t: int, i: nat)
    requires History(s) && NoOrphan(SparedOf(s, t)) && 0 < i < |s| && s[i].isIncremental && Spared(s[i], t)
    ensures Spared(s[i - 1], t)
  {
    var r := SparedOf(s, t);
    SparedMembers(s, t, s[i]);
    var k :| 0 <= k < |r| && r[k] == s[i];
    var m :| 0 <= m < |r| && r[m].id == r[k].parent;
    SparedMembers(s, t, r[m]);
    var q :| 0 <= q < |s| && s[q] == r[m];
    assert LinkedAt(s, i);
    SameId(s, q, i - 1);
  }

  lemma SparedParentsSuffice(s: seq<Backup>, t: int)
    requires History(s) && forall i :: !LosesParent(s, t, i)
    ensures NoOrphan(SparedOf(s, t))
  {
    var r := SparedOf(s, t);
    forall k | 0 <= k < |r| && r[k].isIncremental ensures exists m :: 0 <= m < |r| && r[m].id == r[k].parent {
      SparedMembers(s, t, r[k]);
      var i :| 0 <= i < |s| && s[i] == r[k];
      assert LinkedAt(s, i) && !LosesParent(s, t, i);
      SparedMembers(s, t, s[i - 1]);
      var m :| 0 <= m < |r| && r[m] == s[i - 1];
      assert r[m].id == r[k].parent;
    }
  }

  // ---------- every state on the way ----------

  lemma {:induction false} BackStatesAreHistories(s: seq<Backup>, i: nat, j: nat, failing: Failing)
    requires History(s) && i <= j <= |s| && (j < |s| ==> !s[j].isIncremental)
    ensures AllHistories(DeleteBackStates(s, i, j, failing))
    decreases j
  {
    if i < j {
      DeleteAtKeeps(s, j - 1, failing);
      if s[j - 1].id !in failing {
        BackStatesAreHistories(Without(s, j - 1), i, j - 1, failing);
      }
    }
  }

  lemma {:induction false} ChainsStatesAreHistories(s: seq<Backup>, ids: seq<string>, failing: Failing)
    requires History(s)
    ensures AllHistories(DeleteChainsStates(s, ids, failing))
    decreases |ids|
  {
    if ids != [] {
      var i := Position(s, ids[0]);
      if i < |s| {
        BackStatesAreHistories(s, i, ChainEnd(s, i), failing);
        DeleteBackKeeps(s, i, ChainEnd(s, i), failing);
      }
      var (r, raised) := DeleteChain(s, ids[0], failing);
      if !raised {
        ChainsStatesAreHistories(r, ids[1..], failing);
      }
    }
  }

  /** After every single deletion of a retention, and whichever of them fail, every incremental has its parent. */
  lemma RetentionNeverOrphans(s: seq<Backup>, keep: int, failing: Failing, k: nat)
    requires History(s) && k < |DeleteChainsStates(s, Excess(s, keep), failing)|
    ensures NoOrphan(DeleteChainsStates(s, Excess(s, keep), failing)[k])
  {
    ChainsStatesAreHistories(s, Excess(s, keep), failing);
    LinkedHasNoOrphan(DeleteChainsStates(s, Excess(s, keep), failing)[k]);
  }

  /** The list with the backups due by `t` from position `m` on gone, in front of `tail`. */
  function GoneFrom(s: seq<Backup>, t: int, m: nat, tail: seq<Backup>): seq<Backup>
    requires m <= |s|
  {
    s[..m] + (SparedOf(s[m..], t) + tail)
  }

  /** The backup at `m` could not be deleted, and carries the status of the failure; the later ones are gone. */
  function StuckAt(s: seq<Backup>, t: int, m: nat, status: Status, tail: seq<Backup>): seq<Backup>
    requires m < |s|
  {
    s[..m] + ([s[m].(status := status)] + (SparedOf(s[m + 1..], t) + tail))
  }

  predicate LeftFrom(s: seq<Backup>, t: int, failing: Failing, tail: seq<Backup>, r: seq<Backup>, m: nat) {
    && m < |s| && !Spared(s[m], t)
    && r == if s[m].id in failing then StuckAt(s, t, m, failing[s[m].id], tail) else GoneFrom(s, t, m, tail)
  }

  ghost predicate NewestGone(s: seq<Backup>, t: int, failing: Failing, tail: seq<Backup>, r: seq<Backup>) {
    exists m: nat {:trigger LeftFrom(s, t, failing, tail, r, m)} :: LeftFrom(s, t, failing, tail, r, m)
  }

  ghost predicate AllNewestGone(s: seq<Backup>, t: int, failing: Failing, tail: seq<Backup>, states: seq<seq<Backup>>) {
    forall k :: 0 <= k < |states| ==> NewestGone(s, t, failing, tail, states[k])
  }

  /** What the last backup of the list adds to those spared. */
  function LastSpared(s: seq<Backup>, t: int): seq<Backup>
    requires s != []
  {
    if Spared(s[|s| - 1], t) then [s[|s| - 1]] else []
  }

  lemma SparedOfTail(s: seq<Backup>, t: int, m: nat)
    requires m < |s|
    ensures SparedOf(s[m..], t)
         == SparedOf(s[..|s| - 1][m..], t) + LastSpared(s, t)
  {
    assert s[m..][..|s| - m - 1] == s[..|s| - 1][m..];
  }

  lemma GoneFromLonger(s: seq<Backup>, t: int, m: nat, tail: seq<Backup>)
    requires m < |s| - 1
    ensures GoneFrom(s[..|s| - 1], t, m, LastSpared(s, t) + tail) == GoneFrom(s, t, m, tail)
  {
    SparedOfTail(s, t, m);
    Associative(SparedOf(s[..|s| - 1][m..], t), LastSpared(s, t), tail);
    assert s[..|s| - 1][..m] == s[..m];
  }

  lemma StuckAtLonger(s: seq<Backup>, t: int, m: nat, status: Status, tail: seq<Backup>)
    requires m < |s| - 1
    ensures StuckAt(s[..|s| - 1], t, m, status, LastSpared(s, t) + tail) == StuckAt(s, t, m, status, tail)
  {
    SparedOfTail(s, t, m + 1);
    Associative(SparedOf(s[..|s| - 1][m + 1..], t), LastSpared(s, t), tail);
    assert s[..|s| - 1][..m] == s[..m];
  }

  lemma LeftFromLonger(s: seq<Backup>, t: int, failing: Failing, tail: seq<Backup>, r: seq<Backup>, m: nat)
    requires s != [] && LeftFrom(s[..|s| - 1], t, failing, LastSpared(s, t) + tail, r, m)
    ensures LeftFrom(s, t, failing, tail, r, m)
  {
    assert s[..|s| - 1][m] == s[m];
    if s[m].id in failing {
      StuckAtLonger(s, t, m, failing[s[m].id], tail);
    } else {
      GoneFromLonger(s, t, m, tail);
    }
  }

  lemma NewestGoneLonger(s: seq<Backup>, t: int, failing: Failing, tail: seq<Backup>, r: seq<Backup>)
    requires s != [] && NewestGone(s[..|s| - 1], t, failing, LastSpared(s, t) + tail, r)
    ensures NewestGone(s, t, failing, tail, r)
  {
    var m: nat :| LeftFrom(s[..|s| - 1], t, failing, LastSpared(s, t) + tail, r, m);
    LeftFromLonger(s, t, failing, tail, r, m);
  }

  lemma AllNewestGoneLonger(s: seq<Backup>, t: int, failing: Failing, tail: seq<Backup>, states: seq<seq<Backup>>)
    requires s != []
    requires AllNewestGone(s[..|s| - 1], t, failing, LastSpared(s, t) + tail, states)
    ensures AllNewestGone(s, t, failing, tail, states)
  {
    forall k | 0 <= k < |states| ensures NewestGone(s, t, failing, tail, states[k]) {
      NewestGoneLonger(s, t, failing, tail, states[k]);
    }
  }

  /** What is deleted next, when the last backup of the list is due. */
  lemma LastIsNext(s: seq<Backup>, tail: seq<Backup>, t: int)
    requires s != [] && Chronological(s + tail) && !Spared(s[|s| - 1], t)
    ensures var n := |s| - 1;
            && OlderThan(s, t) == [s[n].id] + OlderThan(s[..n], t)
            && Position(s + tail, s[n].id) == n
            && Without(s + tail, n) == s[..n] + tail && Chronological(s[..n] + tail)
  {
    var n, all := |s| - 1, s + tail;
    PositionOf(all, n);
    WithoutKeepsOrder(all, n);
    assert Without(all, n) == s[..n] + tail;
  }

  lemma NothingBehind(s: seq<Backup>, t: int, tail: seq<Backup>, status: Status)
    requires s != [] && !Spared(s[|s| - 1], t)
    ensures GoneFrom(s, t, |s| - 1, tail) == s[..|s| - 1] + tail
    ensures StuckAt(s, t, |s| - 1, status, tail) == Marked(s + tail, |s| - 1, status)
  {
    var n := |s| - 1;
    assert s[n..] == [s[n]] && [s[n]][..0] == [] && s[n + 1..] == [];
    assert SparedOf([s[n]], t) == [];
    assert [] + tail == tail;
    var x := s[n].(status := status);
    assert Marked(s + tail, n, status) == s[..n] + ([x] + tail);
  }

  lemma StatesOfFirst(all: seq<Backup>, id: string, rest: seq<string>, i: nat, failing: Failing)
    requires i < |all| && Position(all, id) == i
    ensures DeleteEachStates(all, [id] + rest, failing)
         == if id in failing then [Marked(all, i, failing[id])]
            else [Without(all, i)] + DeleteEachStates(Without(all, i), rest, failing)
  {
    assert ([id] + rest)[1..] == rest;
  }

  /** The attempt to delete the last backup of the list, if it is due. */
  lemma LastAttempt(s: seq<Backup>, tail: seq<Backup>, t: int, failing: Failing)
    requires s != [] && Chronological(s + tail) && !Spared(s[|s| - 1], t)
    ensures var n := |s| - 1;
            && Chronological(s[..n] + tail)
            && DeleteEachStates(s + tail, OlderThan(s, t), failing)
               == (if s[n].id in failing then [StuckAt(s, t, n, failing[s[n].id], tail)]
                   else [GoneFrom(s, t, n, tail)]
                        + DeleteEachStates(s[..n] + tail, OlderThan(s[..n], t), failing))
  {
    var n := |s| - 1;
    LastIsNext(s, tail, t);
    NothingBehind(s, t, tail, if s[n].id in failing then failing[s[n].id] else Error);
    StatesOfFirst(s + tail, s[n].id, OlderThan(s[..n], t), n, failing);
  }

  lemma OneMoreState(s: seq<Backup>, t: int, failing: Failing, tail: seq<Backup>, states: seq<seq<Backup>>,
                     r: seq<Backup>)
    requires NewestGone(s, t, failing, tail, r) && AllNewestGone(s, t, failing, tail, states)
    ensures AllNewestGone(s, t, failing, tail, [r] + states)
  {
  }

  lemma LastLeft(s: seq<Backup>, t: int, failing: Failing, tail: seq<Backup>, r: seq<Backup>)
    requires s != [] && LeftFrom(s, t, failing, tail, r, |s| - 1)
    ensures NewestGone(s, t, failing, tail, r)
  {
  }

  lemma {:induction false} StatesByAge(s: seq<Backup>, tail: seq<Backup>, t: int, failing: Failing)
    requires Chronological(s + tail)
    ensures AllNewestGone(s, t, failing, tail, DeleteEachStates(s + tail, OlderThan(s, t), failing))
    decreases s, 1
  {
    if s != [] {
      var n := |s| - 1;
      if Spared(s[n], t) {
        assert s[..n] + ([s[n]] + tail) == s + tail;
        assert OlderThan(s, t) == OlderThan(s[..n], t);
        StatesByAge(s[..n], [s[n]] + tail, t, failing);
        AllNewestGoneLonger(s, t, failing, tail, DeleteEachStates(s + tail, OlderThan(s, t), failing));
      } else {
        DueStates(s, tail, t, failing);
      }
    }
  }

  lemma {:induction false} DueStates(s: seq<Backup>, tail: seq<Backup>, t: int, failing: Failing)
    requires s != [] && Chronological(s + tail) && !Spared(s[|s| - 1], t)
    ensures AllNewestGone(s, t, failing, tail, DeleteEachStates(s + tail, OlderThan(s, t), failing))
    decreases s, 0
  {
    var n := |s| - 1;
    LastAttempt(s, tail, t, failing);
    if s[n].id in failing {
      LastLeft(s, t, failing, tail, StuckAt(s, t, n, failing[s[n].id], tail));
    } else {
      var rest := DeleteEachStates(s[..n] + tail, OlderThan(s[..n], t), failing);
      StatesByAge(s[..n], tail, t, failing);
      assert [] + tail == tail;
      AllNewestGoneLonger(s, t, failing, tail, rest);
      LastLeft(s, t, failing, tail, GoneFrom(s, t, n, tail));
      OneMoreState(s, t, failing, tail, rest, GoneFrom(s, t, n, tail));
    }
  }

  /** The backup is due: removal by age is to delete it. */
  predicate Due(s: seq<Backup>, t: int, id: string) {
    exists i :: 0 <= i < |s| && s[i].id == id && !Spared(s[i], t)
  }

  /** Nothing that is due has lost its parent. */
  ghost predicate DueHaveParents(s: seq<Backup>, t: int, r: seq<Backup>) {
    forall k :: 0 <= k < |r| && r[k].isIncremental && Due(s, t, r[k].id) ==>
      exists p :: 0 <= p < |r| && r[p].id == r[k].parent
  }

  lemma {:induction false} SparedAreSpared(s: seq<Backup>, t: int)
    ensures forall k :: 0 <= k < |SparedOf(s, t)| ==> SparedOf(s, t)[k] in s && Spared(SparedOf(s, t)[k], t)
  {
    if s != [] {
      SparedAreSpared(s[..|s| - 1], t);
    }
  }

  /** What is left behind the first `m` is not due. */
  lemma SparedNotDue(s: seq<Backup>, t: int, m: nat, b: Backup)
    requires Chronological(s) && m <= |s| && b in SparedOf(s[m..], t)
    ensures !Due(s, t, b.id)
  {
    SparedAreSpared(s[m..], t);
    var q :| 0 <= q < |s[m..]| && s[m..][q] == b;
    forall i | 0 <= i < |s| && s[i].id == b.id ensures Spared(s[i], t) {
      SameId(s, i, m + q);
    }
  }

  lemma ParentBefore(s: seq<Backup>, r: seq<Backup>, k: nat)
    requires Linked(s) && k < |s| && k < |r| && r[k].isIncremental == s[k].isIncremental && r[k].parent == s[k].parent
    requires forall i :: 0 <= i < k ==> r[i] == s[i]
    requires r[k].isIncremental
    ensures exists p :: 0 <= p < |r| && r[p].id == r[k].parent
  {
    assert LinkedAt(s, k);
    assert r[k - 1].id == r[k].parent;
  }

  /** A list that begins like the history, up to a changed status, and goes on with what is not due. */
  lemma BeginsLike(s: seq<Backup>, t: int, r: seq<Backup>, m: nat, from: nat)
    requires History(s) && from <= m <= |s| && m <= |r| && m <= from + 1
    requires forall i :: 0 <= i < from ==> r[i] == s[i]
    requires from < m ==> r[from].isIncremental == s[from].isIncremental && r[from].parent == s[from].parent
    requires r[m..] == SparedOf(s[m..], t)
    ensures DueHaveParents(s, t, r)
  {
    forall k | 0 <= k < |r| && r[k].isIncremental && Due(s, t, r[k].id)
      ensures exists p :: 0 <= p < |r| && r[p].id == r[k].parent
    {
      if k < m {
        ParentBefore(s, r, k);
      } else {
        assert r[k] == r[m..][k - m];
        SparedNotDue(s, t, m, r[k]);
      }
    }
  }

  /**
   * In every state that a removal by age goes through, whichever deletions fail, a backup that is due and
   * still there has its parent there: only backups that are spared ever lose theirs.
   */
  lemma RemovalByAgeKeepsParents(s: seq<Backup>, t: int, failing: Failing, k: nat)
    requires History(s) && k < |DeleteEachStates(s, OlderThan(s, t), failing)|
    ensures DueHaveParents(s, t, DeleteEachStates(s, OlderThan(s, t), failing)[k])
  {
    assert s + [] == s;
    StatesByAge(s, [], t, failing);
    var r := DeleteEachStates(s, OlderThan(s, t), failing)[k];
    assert NewestGone(s, t, failing, [], r);
    var m: nat :| LeftFrom(s, t, failing, [], r, m);
    LeftHasParents(s, t, failing, r, m);
  }

  lemma LeftHasParents(s: seq<Backup>, t: int, failing: Failing, r: seq<Backup>, m: nat)
    requires History(s) && LeftFrom(s, t, failing, [], r, m)
    ensures DueHaveParents(s, t, r)
  {
    if s[m].id in failing {
      assert SparedOf(s[m + 1..], t) + [] == SparedOf(s[m + 1..], t);
      BeginsLike(s, t, r, m + 1, m);
    } else {
      assert SparedOf(s[m..], t) + [] == SparedOf(s[m..], t);
      BeginsLike(s, t, r, m, m);
    }
  }

  // ---------- how a removal by age ends when deletions fail ----------

  /** The backup at `m` is due and its deletion fails. */
  predicate DueFails(s: seq<Backup>, t: int, failing: Failing, m: nat) {
    m < |s| && !Spared(s[m], t) && s[m].id in failing
  }

  ghost predicate NoDueFails(s: seq<Backup>, t: int, failing: Failing) {
    forall m: nat :: !DueFails(s, t, failing, m)
  }

  /** It is the newest of those. */
  ghost predicate NewestDueFails(s: seq<Backup>, t: int, failing: Failing, m: nat) {
    DueFails(s, t, failing, m) && forall k: nat :: k > m ==> !DueFails(s, t, failing, k)
  }

  lemma OutcomeOfFirst(all: seq<Backup>, id: string, rest: seq<string>, i: nat, failing: Failing)
    requires i < |all| && Position(all, id) == i
    ensures DeleteEach(all, [id] + rest, failing)
         == if id in failing then (Marked(all, i, failing[id]), true) else DeleteEach(Without(all, i), rest, failing)
  {
    assert ([id] + rest)[1..] == rest;
  }

  /** One attempt, or none, at the last backup of the list. */
  lemma LastOutcome(s: seq<Backup>, tail: seq<Backup>, t: int, failing: Failing)
    requires s != [] && Chronological(s + tail)
    ensures var n := |s| - 1;
            && Chronological(s[..n] + (LastSpared(s, t) + tail))
            && DeleteEach(s + tail, OlderThan(s, t), failing)
               == if DueFails(s, t, failing, n) then (StuckAt(s, t, n, failing[s[n].id], tail), true)
                  else DeleteEach(s[..n] + (LastSpared(s, t) + tail), OlderThan(s[..n], t), failing)
  {
    var n := |s| - 1;
    if Spared(s[n], t) {
      assert s[..n] + ([s[n]] + tail) == s + tail;
      assert OlderThan(s, t) == OlderThan(s[..n], t);
    } else {
      assert [] + tail == tail;
      LastIsNext(s, tail, t);
      NothingBehind(s, t, tail, if s[n].id in failing then failing[s[n].id] else Error);
      OutcomeOfFirst(s + tail, s[n].id, OlderThan(s[..n], t), n, failing);
    }
  }

  lemma {:induction false} AllDueDeleted(s: seq<Backup>, tail: seq<Backup>, t: int, failing: Failing)
    requires Chronological(s + tail) && NoDueFails(s, t, failing)
    ensures DeleteEach(s + tail, OlderThan(s, t), failing) == (SparedOf(s, t) + tail, false)
  {
    if s == [] {
      assert s + tail == tail && [] + tail == tail;
    } else {
      var n := |s| - 1;
      LastOutcome(s, tail, t, failing);
      assert !DueFails(s, t, failing, n);
      forall m: nat ensures !DueFails(s[..n], t, failing, m) {
        assert !DueFails(s, t, failing, m);
      }
      AllDueDeleted(s[..n], LastSpared(s, t) + tail, t, failing);
      SparedOfLast(s, t);
      Associative(SparedOf(s[..n], t), LastSpared(s, t), tail);
    }
  }

  lemma SparedOfLast(s: seq<Backup>, t: int)
    requires s != []
    ensures SparedOf(s, t) == SparedOf(s[..|s| - 1], t) + LastSpared(s, t)
  {
  }

  lemma {:induction false} DueDeletedUpTo(s: seq<Backup>, tail: seq<Backup>, t: int, failing: Failing, m: nat)
    requires Chronological(s + tail) && NewestDueFails(s, t, failing, m)
    ensures DeleteEach(s + tail, OlderThan(s, t), failing) == (StuckAt(s, t, m, failing[s[m].id], tail), true)
  {
    var n := |s| - 1;
    LastOutcome(s, tail, t, failing);
    if m < n {
      assert !DueFails(s, t, failing, n);
      assert s[..n][m] == s[m];
      forall k: nat | k > m ensures !DueFails(s[..n], t, failing, k) {
        assert !DueFails(s, t, failing, k);
      }
      DueDeletedUpTo(s[..n], LastSpared(s, t) + tail, t, failing, m);
      StuckAtLonger(s, t, m, failing[s[m].id], tail);
    }
  }

  lemma {:induction false} NewestOfDue(s: seq<Backup>, t: int, failing: Failing, n: nat) returns (m: nat)
    requires n <= |s| && (forall k: nat :: k >= n ==> !DueFails(s, t, failing, k)) && !NoDueFails(s, t, failing)
    ensures NewestDueFails(s, t, failing, m)
  {
    var k: nat :| DueFails(s, t, failing, k);
    assert k < n;
    if DueFails(s, t, failing, n - 1) {
      m := n - 1;
    } else {
      m := NewestOfDue(s, t, failing, n - 1);
    }
  }

  /**
   * A removal by age raises exactly when the deletion of a due backup fails. Without that exactly the spared ones
   * stay. With it, the due ones newer than the newest that fails are gone, that one carries the status of its
   * failure, and all older ones are untouched.
   */
  lemma RemovalByAgeLeaves(s: seq<Backup>, t: int, failing: Failing)
    requires Chronological(s)
    ensures var r := DeleteEach(s, OlderThan(s, t), failing);
            && (r.1 <==> !NoDueFails(s, t, failing))
            && (!r.1 ==> r.0 == SparedOf(s, t))
            && (forall m: nat :: NewestDueFails(s, t, failing, m) ==> r.0 == StuckAt(s, t, m, failing[s[m].id], []))
  {
    assert s + [] == s;
    if NoDueFails(s, t, failing) {
      AllDueDeleted(s, [], t, failing);
      assert SparedOf(s, t) + [] == SparedOf(s, t);
    } else {
      var m := NewestOfDue(s, t, failing, |s|);
      DueDeletedUpTo(s, [], t, failing, m);
      forall k: nat | NewestDueFails(s, t, failing, k) ensures k == m {
      }
    }
  }
}
