/**
 * The table of jobs and the poll that keeps it in step with the jobs fetched
 * (freezer/scheduler/freezer_scheduler.py:205-246).
 */
module FreezerScheduler {
  import opened Bytes
  import opened SchedulerJob

  type Table = map<string, Snapshot>

  /**
   * A fetched document, how scheduling it would end, and the process id it carries: None when there is none,
   * or none that reads as a number.
   */
  datatype Fetched = Fetched(doc: Doc, fate: Fate, pid: Option<int>)
  {
    /** An abort looks up the process to terminate before the job sees the event. */
    predicate LacksPid() {
      doc.event.AbortEvent? && pid.None?
    }
  }

  // ---------- the poll as a function on the table's snapshots ----------

  /** One fetched document: the table afterwards, and whether processing it raised. */
  function Visit(t: Table, f: Fetched): (Table, bool) {
    var d := if f.doc.id in t then f.doc else Created(f.doc);
    var j := if f.doc.id in t then t[f.doc.id] else Snapshot(Stop, d, false, Idle);
    var o := ProcessEvent(j, d, f.fate);
    if f.LacksPid() then (t[f.doc.id := j], true) else (t[f.doc.id := o.job], o.raised)
  }

  /** All fetched documents in order, up to the first that raises. */
  function VisitAll(t: Table, fetched: seq<Fetched>): (Table, bool) {
    if fetched == [] then (t, false)
    else
      var (u, raised) := VisitAll(t, fetched[..|fetched| - 1]);
      if raised then (u, true) else Visit(u, fetched[|fetched| - 1])
  }

  predicate IsFetched(id: string, fetched: seq<Fetched>) {
    exists k :: 0 <= k < |fetched| && fetched[k].doc.id == id
  }

  /** Jobs that were not fetched are asked to be removed, and the removed ones leave the table. */
  function RemoveMissing(t: Table, fetched: seq<Fetched>): Table {
    map id | id in t :: if IsFetched(id, fetched) then t[id] else CallRemove(t[id])
  }

  function DropRemoved(t: Table): Table {
    map id | id in t && !t[id].doc.status.RemovedStatus? :: t[id]
  }

  function Polled(t: Table, fetched: seq<Fetched>): (Table, bool) {
    var (u, raised) := VisitAll(t, fetched);
    if raised then (u, true) else (DropRemoved(RemoveMissing(u, fetched)), false)
  }

  /** The table just before the removed jobs are popped. */
  function Asked(t: Table, fetched: seq<Fetched>): Table {
    RemoveMissing(VisitAll(t, fetched).0, fetched)
  }

  // ---------- the scheduler object ----------

  class FreezerScheduler {
    var jobs: map<string, Job>

    constructor ()
      ensures Valid() && View() == map[]
    {
      jobs := map[];
    }

    /** Different ids have different job objects. */
    ghost predicate Valid()
      reads this
    {
      forall a, b :: a in jobs && b in jobs && a != b ==> jobs[a] != jobs[b]
    }

    ghost function View(): Table
      reads this, jobs.Values
    {
      map id | id in jobs :: jobs[id].View()
    }

    /** The existing job of a document, or a new one, processes the document's event. */
    method VisitDoc(f: Fetched) returns (raised: bool)
      requires Valid() && f.doc.event.Recognised()
      modifies this, jobs.Values
      ensures Valid() && fresh(jobs.Values - old(jobs.Values))
      ensures (View(), raised) == Visit(old(View()), f)
    {
      ghost var before := View();
      var job;
      var doc := f.doc;
      if doc.id in jobs {
        job := jobs[doc.id];
      } else {
        job := new Job(doc);
        doc := job.doc;
        jobs := jobs[doc.id := job];
      }
      ghost var start := job.View();
      raised := f.LacksPid();
      if !raised {
        var calls;
        raised, calls := job.HandleEvent(doc, f.fate);
      }
      assert start == if doc.id in before then before[doc.id] else Snapshot(Stop, doc, false, Idle);
      assert job.View() == if f.LacksPid() then start else ProcessEvent(start, doc, f.fate).job;
      assert View() == before[doc.id := job.View()];
    }

    method VisitDocs(fetched: seq<Fetched>) returns (raised: bool)
      requires Valid() && forall k :: 0 <= k < |fetched| ==> fetched[k].doc.event.Recognised()
      modifies this, jobs.Values
      ensures Valid() && fresh(jobs.Values - old(jobs.Values))
      ensures (View(), raised) == VisitAll(old(View()), fetched)
    {
      raised := false;
      var i := 0;
      while i < |fetched| && !raised
        invariant 0 <= i <= |fetched| && Valid() && fresh(jobs.Values - old(jobs.Values))
        invariant !raised ==> (View(), false) == VisitAll(old(View()), fetched[..i])
        invariant raised ==> (View(), true) == VisitAll(old(View()), fetched)
      {
        ghost var before := View();
        raised := VisitDoc(fetched[i]);
        i := i + 1;
        assert fetched[..i][..i - 1] == fetched[..i - 1];
        assert (View(), raised) == VisitAll(old(View()), fetched[..i]);
        if raised {
          RaisedStays(old(View()), fetched, i);
        }
      }
      assert !raised ==> fetched[..i] == fetched;
    }

    /** Removal is requested from every job that was not fetched. */
    method AskMissing(fetched: seq<Fetched>)
      requires Valid()
      modifies jobs.Values
      ensures View() == RemoveMissing(old(View()), fetched)
    {
      ghost var t := View();
      var todo := jobs.Keys;
      while todo != {}
        invariant todo <= jobs.Keys
        invariant forall id :: id in jobs ==>
            jobs[id].View() == if id in todo || IsFetched(id, fetched) then t[id] else CallRemove(t[id])
      {
        var id :| id in todo;
        if !IsFetched(id, fetched) {
          jobs[id].Remove();
        }
        todo := todo - {id};
      }
    }

    /** The jobs whose document says so leave the table. */
    method PopRemoved()
      requires Valid()
      modifies this
      ensures Valid() && jobs.Values <= old(jobs.Values)
      ensures View() == DropRemoved(old(View()))
    {
      var removeList := set id | id in jobs && jobs[id].doc.status.RemovedStatus?;
      jobs := jobs - removeList;
    }

    /** A poll; `reply` is None when fetching the jobs raised. */
    method Poll(reply: Option<seq<Fetched>>) returns (raised: bool)
      requires Valid()
      requires reply.Some? ==> forall k :: 0 <= k < |reply.value| ==> reply.value[k].doc.event.Recognised()
      modifies this, jobs.Values
      ensures Valid()
      ensures reply.None? ==> !raised && View() == old(View())
      ensures reply.Some? ==> (View(), raised) == Polled(old(View()), reply.value)
    {
      if reply.None? {
        return false;
      }
      raised := VisitDocs(reply.value);
      if raised {
        return;
      }
      AskMissing(reply.value);
      PopRemoved();
    }
  }

  lemma {:induction false} RaisedStays(t: Table, fetched: seq<Fetched>, i: nat)
    requires i <= |fetched| && VisitAll(t, fetched[..i]).1
    ensures VisitAll(t, fetched) == VisitAll(t, fetched[..i])
    decreases |fetched| - i
  {
    if i == |fetched| {
      assert fetched[..i] == fetched;
    } else {
      assert fetched[..i + 1][..i] == fetched[..i];
      RaisedStays(t, fetched, i + 1);
    }
  }

  // ---------- an abort without a process id ends the poll ----------

  predicate Blocked(fetched: seq<Fetched>) {
    exists k :: 0 <= k < |fetched| && fetched[k].LacksPid()
  }

  /** A poll stops at the first such document: its job does not see the event, and what comes later is not reached. */
  lemma AbortWithoutPidStops(t: Table, fetched: seq<Fetched>, k: nat)
    requires k < |fetched| && fetched[k].LacksPid() && !VisitAll(t, fetched[..k]).1
    ensures var (u, raised) := Polled(t, fetched);
            var before, id := VisitAll(t, fetched[..k]).0, fetched[k].doc.id;
            && raised && id in u
            && u == before[id := if id in before then before[id] else Snapshot(Stop, fetched[k].doc, false, Idle)]
  {
    assert fetched[..k + 1][..k] == fetched[..k];
    RaisedStays(t, fetched, k + 1);
  }

  lemma BlockedRaises(t: Table, fetched: seq<Fetched>)
    requires Blocked(fetched)
    ensures VisitAll(t, fetched).1
  {
    var k :| 0 <= k < |fetched| && fetched[k].LacksPid();
    if VisitAll(t, fetched[..k]).1 {
      RaisedStays(t, fetched, k);
    } else {
      AbortWithoutPidStops(t, fetched, k);
    }
  }

  /** The table after a series of polls. */
  function Polls(t: Table, replies: seq<seq<Fetched>>): Table
    decreases |replies|
  {
    if replies == [] then t else Polls(Polled(t, replies[0]).0, replies[1..])
  }

  /** As long as the service returns such a document, no job that it no longer returns is asked to be removed. */
  lemma {:induction false} BlockedPollsRemoveNothing(t: Table, replies: seq<seq<Fetched>>, id: string)
    requires id in t && forall n :: 0 <= n < |replies| ==> Blocked(replies[n]) && !IsFetched(id, replies[n])
    ensures id in Polls(t, replies) && Polls(t, replies)[id] == t[id]
    decreases |replies|
  {
    if replies == [] {
    } else {
      BlockedRaises(t, replies[0]);
      VisitsLeaveOthers(t, replies[0], id);
      BlockedPollsRemoveNothing(Polled(t, replies[0]).0, replies[1..], id);
    }
  }

  // ---------- what a poll leaves in the table ----------

  ghost predicate TableOk(t: Table) {
    forall id :: id in t ==> Inv(t[id])
  }

  ghost predicate AllRecognised(fetched: seq<Fetched>) {
    forall k :: 0 <= k < |fetched| ==> fetched[k].doc.event.Recognised()
  }

  lemma {:induction false} VisitsKeepOk(t: Table, fetched: seq<Fetched>)
    requires TableOk(t) && AllRecognised(fetched)
    ensures TableOk(VisitAll(t, fetched).0)
  {
    if fetched == [] {
    } else {
      var n := |fetched| - 1;
      VisitsKeepOk(t, fetched[..n]);
      var (u, raised) := VisitAll(t, fetched[..n]);
      if !raised {
        VisitKeepsOk(u, fetched[n]);
      }
    }
  }

  lemma {:induction false} VisitsLeaveOthers(t: Table, fetched: seq<Fetched>, id: string)
    requires !IsFetched(id, fetched)
    ensures var u := VisitAll(t, fetched).0; (id in u <==> id in t) && (id in t ==> u[id] == t[id])
  {
    if fetched == [] {
    } else {
      var n := |fetched| - 1;
      assert fetched[n].doc.id != id;
      assert forall k :: 0 <= k < n ==> fetched[..n][k] == fetched[k];
      VisitsLeaveOthers(t, fetched[..n], id);
    }
  }

  lemma {:induction false} VisitsAddFetched(t: Table, fetched: seq<Fetched>, k: nat)
    requires k < |fetched| && !VisitAll(t, fetched).1
    ensures fetched[k].doc.id in VisitAll(t, fetched).0
  {
    var n := |fetched| - 1;
    if k < n {
      assert fetched[..n][k] == fetched[k];
      VisitsAddFetched(t, fetched[..n], k);
    }
  }

  /** A document fetched once is processed once, by its own job, whatever else was fetched. */
  lemma {:induction false} FetchedOnceIsProcessed(t: Table, fetched: seq<Fetched>, k: nat)
    requires k < |fetched| && !VisitAll(t, fetched).1
    requires forall i :: 0 <= i < |fetched| && i != k ==> fetched[i].doc.id != fetched[k].doc.id
    ensures var u, f := VisitAll(t, fetched).0, fetched[k];
            f.doc.id in u
            && !f.LacksPid()
            && u[f.doc.id] == if f.doc.id in t then ProcessEvent(t[f.doc.id], f.doc, f.fate).job
                              else ProcessEvent(Snapshot(Stop, Created(f.doc), false, Idle), Created(f.doc), f.fate).job
  {
    var n := |fetched| - 1;
    if k == n {
      assert forall i :: 0 <= i < n ==> fetched[..n][i].doc.id != fetched[n].doc.id;
      VisitsLeaveOthers(t, fetched[..n], fetched[n].doc.id);
    } else {
      assert fetched[..n][k] == fetched[k];
      assert fetched[n].doc.id != fetched[k].doc.id;
      FetchedOnceIsProcessed(t, fetched[..n], k);
    }
  }

  /**
   * A new job without an event starts by itself, unless its status is stop: the timer lists it exactly
   * when it took the job and did not drop it at once.
   */
  lemma NewJobStartsUnlessStopped(t: Table, fetched: seq<Fetched>, k: nat)
    requires k < |fetched| && !VisitAll(t, fetched).1
    requires forall i :: 0 <= i < |fetched| && i != k ==> fetched[i].doc.id != fetched[k].doc.id
    requires fetched[k].doc.id !in t && fetched[k].doc.event.NoEvent?
    ensures fetched[k].doc.id in VisitAll(t, fetched).0
    ensures var j, f := VisitAll(t, fetched).0[fetched[k].doc.id], fetched[k];
            && (j.held <==> j.state.Scheduled?) && !j.state.Running?
            && (j.held <==> !f.doc.status.StopStatus? && (f.fate.Accepted? || f.fate == FiredAtOnce(false)))
            && (j.execution.Dispatched? <==> !f.doc.status.StopStatus? && f.fate.FiredAtOnce?)
  {
    FetchedOnceIsProcessed(t, fetched, k);
    var d := Created(fetched[k].doc);
    var j := Snapshot(Stop, d, false, Idle);
    if d.event.StartEvent? {
      StartOfStoppedJob(j, d, fetched[k].fate);
    } else {
      PolledJob(j, d, fetched[k].fate);
    }
  }

  lemma VisitKeepsOk(t: Table, f: Fetched)
    requires TableOk(t) && f.doc.event.Recognised()
    ensures TableOk(Visit(t, f).0)
  {
  }

  lemma AskingKeepsOk(t: Table, fetched: seq<Fetched>)
    requires TableOk(t)
    ensures TableOk(RemoveMissing(t, fetched))
  {
  }

  /**
   * After a poll that fetched the jobs and did not raise: a job that was not fetched is left in the
   * table exactly when it is running, with its removal recorded; and every job dropped from the table
   * is stopped and not in the timer.
   */
  lemma PollLeavesFetchedOrRunning(t: Table, fetched: seq<Fetched>, id: string)
    requires TableOk(t) && AllRecognised(fetched) && !VisitAll(t, fetched).1
    ensures var u := Polled(t, fetched).0;
            var asked := Asked(t, fetched);
            && TableOk(u)
            && (!IsFetched(id, fetched) ==> (id in u <==> id in t && t[id].state.Running?))
            && (!IsFetched(id, fetched) && id in u ==> u[id].state.Running? && u[id].doc.event.RemoveEvent?)
            && (id in asked && id !in u ==> asked[id].state.Stop? && !asked[id].held)
            && (IsFetched(id, fetched) ==> id in asked)
  {
    VisitsKeepOk(t, fetched);
    AskingKeepsOk(VisitAll(t, fetched).0, fetched);
    if IsFetched(id, fetched) {
      var k :| 0 <= k < |fetched| && fetched[k].doc.id == id;
      VisitsAddFetched(t, fetched, k);
    } else {
      VisitsLeaveOthers(t, fetched, id);
    }
  }

  /** No job in the table is marked as removed. */
  ghost predicate NoneRemoved(t: Table) {
    forall id :: id in t ==> !t[id].doc.status.RemovedStatus?
  }

  lemma {:induction false} VisitsRemoveNothing(t: Table, fetched: seq<Fetched>, id: string)
    requires TableOk(t) && AllRecognised(fetched)
    requires if id in t then !t[id].doc.status.RemovedStatus?
             else forall k :: 0 <= k < |fetched| && fetched[k].doc.id == id ==> !fetched[k].doc.status.RemovedStatus?
    ensures var u := VisitAll(t, fetched).0;
            TableOk(u) && (id in t ==> id in u) && (id in u ==> !u[id].doc.status.RemovedStatus?)
  {
    VisitsKeepOk(t, fetched);
    if fetched == [] {
    } else {
      var n := |fetched| - 1;
      VisitsKeepOk(t, fetched[..n]);
      VisitsRemoveNothing(t, fetched[..n], id);
      var (u, raised) := VisitAll(t, fetched[..n]);
      if !raised && fetched[n].doc.id == id {
        VisitRemovesNothing(u, fetched[n]);
      }
    }
  }

  lemma VisitRemovesNothing(t: Table, f: Fetched)
    requires TableOk(t) && f.doc.event.Recognised()
    requires if f.doc.id in t then !t[f.doc.id].doc.status.RemovedStatus? else !f.doc.status.RemovedStatus?
    ensures var u := Visit(t, f).0; f.doc.id in u && !u[f.doc.id].doc.status.RemovedStatus?
  {
    var d := if f.doc.id in t then f.doc else Created(f.doc);
    var j := if f.doc.id in t then t[f.doc.id] else Snapshot(Stop, d, false, Idle);
    PolledJob(j, d, f.fate);
  }

  /**
   * A job that is fetched stays in the table, whatever event its document carries, unless it was marked as
   * removed before, or is new and its document says so; and no job in the table is marked after a poll.
   */
  lemma FetchedJobStays(t: Table, fetched: seq<Fetched>, id: string)
    requires TableOk(t) && AllRecognised(fetched) && !VisitAll(t, fetched).1 && IsFetched(id, fetched)
    requires if id in t then !t[id].doc.status.RemovedStatus?
             else forall k :: 0 <= k < |fetched| && fetched[k].doc.id == id ==> !fetched[k].doc.status.RemovedStatus?
    ensures id in Polled(t, fetched).0 && Polled(t, fetched).0[id] == VisitAll(t, fetched).0[id]
    ensures NoneRemoved(Polled(t, fetched).0)
  {
    VisitsRemoveNothing(t, fetched, id);
    var k :| 0 <= k < |fetched| && fetched[k].doc.id == id;
    VisitsAddFetched(t, fetched, k);
  }

  /**
   * A job that raised after the timer had dropped it stays in the table, running, over every series of
   * polls, whatever they fetch for it, and also when they fetch nothing for it.
   */
  lemma {:induction false} StuckJobNeverLeaves(t: Table, replies: seq<seq<Fetched>>, id: string)
    requires TableOk(t) && id in t && Stuck(t[id])
    requires forall n :: 0 <= n < |replies| ==> AllRecognised(replies[n])
    ensures id in Polls(t, replies) && Stuck(Polls(t, replies)[id])
    decreases |replies|
  {
    if replies == [] {
    } else {
      VisitsKeepStuck(t, replies[0], id);
      AskingKeepsOk(VisitAll(t, replies[0]).0, replies[0]);
      StuckJobNeverLeaves(Polled(t, replies[0]).0, replies[1..], id);
    }
  }

  lemma {:induction false} VisitsKeepStuck(t: Table, fetched: seq<Fetched>, id: string)
    requires TableOk(t) && AllRecognised(fetched) && id in t && Stuck(t[id])
    ensures var u := VisitAll(t, fetched).0; TableOk(u) && id in u && Stuck(u[id])
  {
    if fetched == [] {
    } else {
      var n := |fetched| - 1;
      VisitsKeepStuck(t, fetched[..n], id);
      var (u, raised) := VisitAll(t, fetched[..n]);
      if !raised {
        VisitKeepsOk(u, fetched[n]);
        StuckStays(u[id], Poll(fetched[n].doc, fetched[n].fate));
      }
    }
  }

  /**
   * A poll is one step here. Were a submitted execution to begin between the request for removal and the
   * check for removed jobs, the job would outlive this poll, even if it also finished in between, unless it
   * was running already because an earlier execution raised; a later poll that still does not fetch it
   * removes it.
   */
  lemma StartedWhileRemoved(t: Table, id: string, result: Result)
    requires TableOk(t) && id in t && t[id].execution.Dispatched?
    ensures var begun := Begin(CallRemove(t[id]));
            var ended := Finish(begun, result);
            && id in DropRemoved(t[id := begun])
            && (id in DropRemoved(t[id := ended]) <==> !t[id].state.Running?)
            && ended.state.Stop? && !ended.held
            && id !in Polled(t[id := ended], []).0
  {
  }
}
