/**
 * A scheduled job: the three state classes, the event loop, and the execution thread
 * (freezer/scheduler/scheduler_job.py), together with the timer's entry for the job.
 */
module SchedulerJob {
  datatype State = Stop | Scheduled | Running

  /** Event strings: those `process_event` knows, the one only `remove` records, and any other. */
  datatype Event = NoEvent | StopEvent | StartEvent | AbortEvent | AbortedEvent | RemoveEvent | OtherEvent(name: string)
  {
    /** The events the loop in `process_event` can leave behind. */
    predicate Recognised() {
      !RemoveEvent? && !OtherEvent?
    }
  }

  datatype Status =
    | StopStatus
    | ScheduledStatus
    | RunningStatus
    | RemovedStatus
    | CompletedStatus
    | OtherStatus(name: string)

  datatype Result = NoResult | Fail | Success | Aborted

  datatype Doc = Doc(id: string, event: Event, status: Status, result: Result)

  /** What the timer's executor has of the job: nothing, a submitted call of `execute`, or one that runs. */
  datatype Execution = Idle | Dispatched | Executing

  /** A job with its timer entry at one moment; `held` says that the timer lists the job. */
  datatype Snapshot = Snapshot(state: State, doc: Doc, held: bool, execution: Execution)

  /**
   * How scheduling ends: the schedule's fields cannot be read, the timer refuses the job, the timer
   * takes it, or the timer takes it and submits it at once, possibly dropping it as having no next time.
   */
  datatype Fate = Unreadable | Refused | Accepted | FiredAtOnce(drops: bool)

  // ---------- the operations as functions ----------

  function Unscheduled(j: Snapshot): Snapshot {
    j.(state := Stop, held := false, doc := j.doc.(event := NoEvent, status := StopStatus))
  }

  /** `StopState.stop`: the polled document replaces the job's own. */
  function Adopted(j: Snapshot, doc: Doc): Snapshot {
    j.(doc := doc.(event := NoEvent, status := StopStatus))
  }

  /** The timer runs at most one instance of a job: a second submission is skipped. */
  function Submitted(j: Snapshot, drops: bool): Snapshot {
    j.(execution := if j.execution.Idle? then Dispatched else j.execution, held := !drops)
  }

  /** `schedule`, and whether it raises: reading bad fields leaves `kwargs` unbound where it is logged. */
  function Schedule(j: Snapshot, fate: Fate): (Snapshot, bool) {
    if fate.Unreadable? then (j, true)
    else
      var k := if j.held || fate.Refused? then j
               else if fate.Accepted? then j.(held := true)
               else Submitted(j, fate.drops);
      (if k.held then k.(state := Scheduled, doc := k.doc.(status := ScheduledStatus))
       else k.(state := Stop, doc := k.doc.(status := CompletedStatus)), false)
  }

  /** The outcome of one state method: the job, the event to process next, and whether it raised. */
  datatype Outcome = Outcome(job: Snapshot, next: Event, raised: bool)

  function CallStop(j: Snapshot, doc: Doc): Outcome {
    match j.state
    case Stop => Outcome(Adopted(j, doc), NoEvent, false)
    case Scheduled => Outcome(Unscheduled(j), StopEvent, false)
    case Running => Outcome(j.(doc := j.doc.(event := StopEvent)), NoEvent, false)
  }

  function CallAbort(j: Snapshot, doc: Doc): Outcome {
    match j.state
    case Stop => Outcome(Adopted(j, doc), NoEvent, false)
    case Scheduled => Outcome(Adopted(j, doc), NoEvent, false)
    case Running => Outcome(j.(doc := j.doc.(event := AbortEvent)), AbortedEvent, false)
  }

  function CallStart(j: Snapshot, doc: Doc, fate: Fate): Outcome {
    match j.state
    case Stop => var (k, raised) := Schedule(Adopted(j, doc), fate); Outcome(k, NoEvent, raised)
    case Scheduled => Outcome(j.(doc := j.doc.(event := NoEvent)), NoEvent, false)
    case Running => Outcome(j.(doc := j.doc.(event := NoEvent)), NoEvent, false)
  }

  function CallRemove(j: Snapshot): Snapshot {
    if j.state.Running? then j.(doc := j.doc.(event := RemoveEvent))
    else var k := Unscheduled(j); k.(doc := k.doc.(status := RemovedStatus))
  }

  /** One turn of the loop in `process_event`; an event it does not know changes nothing, not even itself. */
  function Turn(o: Outcome, doc: Doc, fate: Fate): Outcome {
    match o.next
    case StopEvent => CallStop(o.job, doc)
    case StartEvent => CallStart(o.job, doc, fate)
    case AbortEvent => CallAbort(o.job, doc)
    case _ => o
  }

  predicate Ended(o: Outcome) {
    o.next.NoEvent? || o.next.AbortedEvent? || o.raised
  }

  /** The loop after `n` turns. */
  function Turns(n: nat, o: Outcome, doc: Doc, fate: Fate): Outcome
    decreases n
  {
    if n == 0 || Ended(o) then o else Turns(n - 1, Turn(o, doc, fate), doc, fate)
  }

  lemma {:induction false} OneMoreTurn(n: nat, o: Outcome, doc: Doc, fate: Fate)
    ensures var r := Turns(n, o, doc, fate); Turns(n + 1, o, doc, fate) == if Ended(r) then r else Turn(r, doc, fate)
    decreases n
  {
    if n == 0 || Ended(o) {
    } else {
      OneMoreTurn(n - 1, Turn(o, doc, fate), doc, fate);
    }
  }

  function ProcessEvent(j: Snapshot, doc: Doc, fate: Fate): Outcome {
    Turns(2, Outcome(j, doc.event, false), doc, fate)
  }

  /** The critical section of `finish`. */
  function Finish(j: Snapshot, result: Result): Snapshot {
    var k := j.(doc := j.doc.(result := result), execution := Idle);
    if k.doc.event.RemoveEvent? then var u := Unscheduled(k); u.(doc := u.doc.(status := RemovedStatus))
    else if !k.held then k.(state := Stop, doc := k.doc.(status := CompletedStatus))
    else if k.doc.event.StopEvent? || k.doc.event.AbortEvent? then
      var u := Unscheduled(k); u.(doc := u.doc.(status := CompletedStatus))
    else k.(state := Scheduled, doc := k.doc.(status := ScheduledStatus))
  }

  /** The critical section at the start of `execute`. */
  function Begin(j: Snapshot): Snapshot {
    j.(state := Running, execution := Executing, doc := j.doc.(status := RunningStatus, result := NoResult))
  }

  /** `Job.create`: a document without an event is given one, from its status. */
  function Created(doc: Doc): Doc {
    doc.(event := if doc.event != NoEvent then doc.event
                  else if doc.status == StopStatus then StopEvent else StartEvent)
  }

  // ---------- the job object ----------

  class Job {
    var state: State
    var doc: Doc
    var held: bool
    var execution: Execution

    constructor (jobDoc: Doc)
      ensures View() == Snapshot(Stop, doc, false, Idle) && Inv(View())
      ensures doc == Created(jobDoc)
    {
      state, held, execution := Stop, false, Idle;
      doc := if jobDoc.status == StopStatus && jobDoc.event == NoEvent then jobDoc.(event := StopEvent)
             else if jobDoc.event == NoEvent then jobDoc.(event := StartEvent)
             else jobDoc;
    }

    function View(): Snapshot
      reads this
    {
      Snapshot(state, doc, held, execution)
    }

    method Unschedule()
      modifies this
      ensures View() == Unscheduled(old(View()))
    {
      held := false;
      doc := doc.(event := NoEvent);
      doc := doc.(status := StopStatus);
      state := Stop;
    }

    method DoSchedule(fate: Fate) returns (raised: bool)
      modifies this
      ensures (View(), raised) == Schedule(old(View()), fate)
    {
      if fate.Unreadable? {
        return true;
      }
      if !held && !fate.Refused? {
        if fate.FiredAtOnce? {
          if execution.Idle? {
            execution := Dispatched;
          }
          held := !fate.drops;
        } else {
          held := true;
        }
      }
      if held {
        doc := doc.(status := ScheduledStatus);
        state := Scheduled;
      } else {
        doc := doc.(status := CompletedStatus);
        state := Stop;
      }
      raised := false;
    }

    method DoStop(jobDoc: Doc) returns (next: Event)
      modifies this
      ensures Outcome(View(), next, false) == CallStop(old(View()), jobDoc)
    {
      match state
      case Stop =>
        doc := jobDoc.(event := NoEvent, status := StopStatus);
        next := NoEvent;
      case Scheduled =>
        Unschedule();
        next := StopEvent;
      case Running =>
        doc := doc.(event := StopEvent);
        next := NoEvent;
    }

    method DoAbort(jobDoc: Doc) returns (next: Event)
      modifies this
      ensures Outcome(View(), next, false) == CallAbort(old(View()), jobDoc)
    {
      if state.Running? {
        doc := doc.(event := AbortEvent);
        next := AbortedEvent;
      } else {
        doc := jobDoc.(event := NoEvent, status := StopStatus);
        next := NoEvent;
      }
    }

    method DoStart(jobDoc: Doc, fate: Fate) returns (next: Event, raised: bool)
      modifies this
      ensures Outcome(View(), next, raised) == CallStart(old(View()), jobDoc, fate)
    {
      raised := false;
      if state.Stop? {
        doc := jobDoc.(event := NoEvent);
        doc := doc.(status := StopStatus);
        raised := DoSchedule(fate);
      } else {
        doc := doc.(event := NoEvent);
      }
      next := NoEvent;
    }

    method Remove()
      modifies this
      ensures View() == CallRemove(old(View()))
    {
      if state.Running? {
        doc := doc.(event := RemoveEvent);
      } else {
        Unschedule();
        doc := doc.(status := RemovedStatus);
      }
    }

    /**
     * The event loop. It is left after at most two state methods: only stopping a scheduled job asks
     * for a second turn, which then finds the job stopped.
     */
    method HandleEvent(jobDoc: Doc, fate: Fate) returns (raised: bool, calls: nat)
      requires jobDoc.event.Recognised()
      modifies this
      ensures var o := ProcessEvent(old(View()), jobDoc, fate); View() == o.job && raised == o.raised
      ensures calls <= 2 && (calls == 2 <==> jobDoc.event.StopEvent? && old(state).Scheduled?)
    {
      ghost var start := Outcome(View(), jobDoc.event, false);
      var next := jobDoc.event;
      raised, calls := false, 0;
      while !next.NoEvent? && !raised
        invariant Turns(calls, start, jobDoc, fate) == Outcome(View(), next, raised)
        invariant next.Recognised() && calls <= 2
        invariant calls == 0 ==> next == jobDoc.event && state == old(state)
        invariant calls == 1 && !next.NoEvent? ==>
            if next.AbortedEvent? then jobDoc.event.AbortEvent?
            else next.StopEvent? && state.Stop? && jobDoc.event.StopEvent? && old(state).Scheduled?
        invariant calls == 1 && (next.NoEvent? || raised) ==> !(jobDoc.event.StopEvent? && old(state).Scheduled?)
        invariant calls == 2 ==> next.NoEvent? && jobDoc.event.StopEvent? && old(state).Scheduled?
        decreases if next.NoEvent? || next.AbortedEvent? || raised then 0
                  else if next.StopEvent? && state.Scheduled? then 2 else 1
      {
        OneMoreTurn(calls, start, jobDoc, fate);
        match next {
          case StopEvent => next := DoStop(jobDoc);
          case StartEvent => next, raised := DoStart(jobDoc, fate);
          case AbortEvent => next := DoAbort(jobDoc);
          case AbortedEvent => break;
        }
        calls := calls + 1;
      }
      OneMoreTurn(calls, start, jobDoc, fate);
      OneMoreTurn(calls + 1, start, jobDoc, fate);
    }

    /** `execute` up to the actions, under the lock. */
    method BeginExecution()
      modifies this
      ensures View() == Begin(old(View()))
    {
      execution := Executing;
      state := Running;
      doc := doc.(status := RunningStatus, result := NoResult);
    }

    /** The end of `execute`, and `finish`. */
    method FinishExecution(result: Result)
      modifies this
      ensures View() == Finish(old(View()), result)
    {
      doc := doc.(result := result);
      execution := Idle;
      if doc.event.RemoveEvent? {
        Unschedule();
        doc := doc.(status := RemovedStatus);
        return;
      }
      if !held {
        doc := doc.(status := CompletedStatus);
        state := Stop;
        return;
      }
      if doc.event.StopEvent? || doc.event.AbortEvent? {
        Unschedule();
        doc := doc.(status := CompletedStatus);
      } else {
        doc := doc.(status := ScheduledStatus);
        state := Scheduled;
      }
    }
  }

  // ---------- which events the loop can leave ----------

  /** The loop ends exactly for the events it knows, and then after at most two state methods. */
  lemma LoopEndsIff(j: Snapshot, doc: Doc, fate: Fate)
    ensures doc.event.Recognised() <==> exists n :: Ended(Turns(n, Outcome(j, doc.event, false), doc, fate))
    ensures doc.event.Recognised() ==> Ended(ProcessEvent(j, doc, fate))
  {
    var o := Outcome(j, doc.event, false);
    if doc.event.Recognised() {
      var p := Turn(o, doc, fate);
      assert Turns(2, o, doc, fate) == if Ended(o) then o else Turns(1, p, doc, fate);
      assert Turns(1, p, doc, fate) == if Ended(p) then p else Turns(0, Turn(p, doc, fate), doc, fate);
      assert Ended(Turns(2, o, doc, fate));
    } else {
      forall n: nat ensures !Ended(Turns(n, o, doc, fate)) {
        UnknownEventStays(n, o, doc, fate);
      }
    }
  }

  lemma {:induction false} UnknownEventStays(n: nat, o: Outcome, doc: Doc, fate: Fate)
    requires !o.next.Recognised() && !o.raised
    ensures Turns(n, o, doc, fate) == o
    decreases n
  {
    if n > 0 {
      UnknownEventStays(n - 1, o, doc, fate);
    }
  }

  // ---------- runs: polls, removals, the timer and the execution thread in any order ----------

  /**
   * `Due` submits an execution; `Lapse` lets the timer drop the job without one; `RaiseRun` ends an execution
   * by an exception, which `execute` does not catch, so that `finish` is skipped.
   */
  datatype Step =
    | Poll(doc: Doc, fate: Fate)
    | Remove
    | Due(drops: bool)
    | Lapse
    | BeginRun
    | FinishRun(result: Result)
    | RaiseRun
  {
    /** A poll for the job carries an event that the loop can leave. */
    predicate Sound() {
      Poll? ==> doc.event.Recognised()
    }
  }

  function Next(j: Snapshot, step: Step): Snapshot {
    match step
    case Poll(doc, fate) => ProcessEvent(j, doc, fate).job
    case Remove => CallRemove(j)
    case Due(drops) => if j.held then Submitted(j, drops) else j
    case Lapse => j.(held := false)
    case BeginRun => if j.execution.Dispatched? then Begin(j) else j
    case FinishRun(result) => if j.execution.Executing? then Finish(j, result) else j
    case RaiseRun => if j.execution.Executing? then j.(execution := Idle) else j
  }

  function Run(j: Snapshot, steps: seq<Step>): Snapshot
    decreases |steps|
  {
    if steps == [] then j else Run(Next(j, steps[0]), steps[1..])
  }

  predicate AllSound(steps: seq<Step>) {
    forall k :: 0 <= k < |steps| ==> steps[k].Sound()
  }

  /** The job ends its current execution unscheduled. */
  predicate Leaving(e: Event) {
    e.StopEvent? || e.AbortEvent? || e.RemoveEvent?
  }

  /** What every reachable job satisfies. */
  predicate Inv(j: Snapshot) {
    && (j.execution.Executing? ==> j.state.Running?)
    && (j.state.Stop? ==> !j.held)
    && (j.doc.status.RemovedStatus? ==> j.state.Stop?)
    && (j.state.Running? ==> j.doc.event.NoEvent? || Leaving(j.doc.event))
    && (j.state.Scheduled? || (j.execution.Dispatched? && !j.state.Running?) ==> j.doc.event.NoEvent?)
  }

  /** What polling a job with a recognised event comes to, in one clause a state. */
  lemma PolledJob(j: Snapshot, doc: Doc, fate: Fate)
    requires doc.event.Recognised()
    ensures ProcessEvent(j, doc, fate).job ==
            match doc.event
            case StopEvent => (if j.state.Scheduled? then Adopted(Unscheduled(j), doc) else CallStop(j, doc).job)
            case StartEvent => CallStart(j, doc, fate).job
            case AbortEvent => CallAbort(j, doc).job
            case _ => j
  {
  }

  /**
   * What a polled stop or abort leaves: of a job that is not running the fetched document, with the event
   * taken and the status `stop`; a stop also takes the job off the timer, an abort does not. A running job
   * records the event and is otherwise left alone.
   */
  lemma StopAndAbortTell(j: Snapshot, doc: Doc, fate: Fate)
    requires Inv(j) && (doc.event.StopEvent? || doc.event.AbortEvent?)
    ensures var k := Next(j, Poll(doc, fate));
            if j.state.Running? then
              k == Snapshot(Running, Doc(j.doc.id, doc.event, j.doc.status, j.doc.result), j.held, j.execution)
            else
              && k.doc == Doc(doc.id, NoEvent, StopStatus, doc.result)
              && (doc.event.StopEvent? ==> k.state.Stop? && !k.held)
              && (doc.event.AbortEvent? ==> k.state == j.state && k.held == j.held)
              && k.execution == j.execution
  {
    PolledJob(j, doc, fate);
  }

  /** A start of a job that is not stopped, and a removal. */
  lemma StartAndRemoveTell(j: Snapshot, doc: Doc, fate: Fate)
    requires Inv(j) && doc.event.StartEvent?
    ensures !j.state.Stop? ==>
              Next(j, Poll(doc, fate))
              == Snapshot(j.state, Doc(j.doc.id, NoEvent, j.doc.status, j.doc.result), j.held, j.execution)
    ensures Next(j, Remove)
            == if j.state.Running? then
                 Snapshot(Running, Doc(j.doc.id, RemoveEvent, j.doc.status, j.doc.result), j.held, j.execution)
               else Snapshot(Stop, Doc(j.doc.id, NoEvent, RemovedStatus, j.doc.result), false, j.execution)
  {
    PolledJob(j, doc, fate);
  }

  lemma NextKeepsInv(j: Snapshot, step: Step)
    requires Inv(j) && step.Sound()
    ensures Inv(Next(j, step))
  {
  }

  /** From its creation on, a job that the timer still lists is not in the stopped state. */
  lemma {:induction false} RunKeepsInv(j: Snapshot, steps: seq<Step>)
    requires Inv(j) && AllSound(steps)
    ensures Inv(Run(j, steps))
    decreases |steps|
  {
    if steps == [] {
    } else {
      NextKeepsInv(j, steps[0]);
      RunKeepsInv(Next(j, steps[0]), steps[1..]);
    }
  }

  /** A job leaves the running state only when its execution finishes, and enters it only when one begins. */
  lemma RunningEndsByFinishing(j: Snapshot, step: Step)
    requires Inv(j) && step.Sound()
    ensures j.state.Running? && !Next(j, step).state.Running? ==> step.FinishRun?
    ensures !j.state.Running? && Next(j, step).state.Running? ==> step.BeginRun? && j.execution.Dispatched?
  {
  }

  /** A job is marked as removed only by a removal, or when its execution finishes after one. */
  lemma RemovedOnlyByRemoval(j: Snapshot, step: Step)
    requires Inv(j) && step.Sound()
    ensures var k := Next(j, step);
            && (k.doc.status.RemovedStatus? && !j.doc.status.RemovedStatus? <==>
                  !j.doc.status.RemovedStatus?
                  && ((step.Remove? && !j.state.Running?)
                      || (step.FinishRun? && j.execution.Executing? && j.doc.event.RemoveEvent?)))
            && (k.doc.event.RemoveEvent? && !j.doc.event.RemoveEvent? ==> step.Remove?)
  {
    if step.Poll? {
      PolledJob(j, step.doc, step.fate);
    }
  }

  /** Over every run without a removal, a job that was not being removed is not removed. */
  lemma {:induction false} NoRemovalNotRemoved(j: Snapshot, steps: seq<Step>)
    requires Inv(j) && AllSound(steps) && forall n :: 0 <= n < |steps| ==> !steps[n].Remove?
    requires !j.doc.status.RemovedStatus? && !j.doc.event.RemoveEvent?
    ensures !Run(j, steps).doc.status.RemovedStatus? && !Run(j, steps).doc.event.RemoveEvent?
    decreases |steps|
  {
    if steps == [] {
    } else {
      RemovedOnlyByRemoval(j, steps[0]);
      NextKeepsInv(j, steps[0]);
      NoRemovalNotRemoved(Next(j, steps[0]), steps[1..]);
    }
  }

  // ---------- the last event of a run decides ----------

  /** The event that the polls and removals during a run leave recorded, `e` being recorded before them. */
  function LastRecorded(e: Event, steps: seq<Step>): Event
    decreases |steps|
  {
    if steps == [] then e
    else
      var f := match steps[0]
               case Remove => RemoveEvent
               case Poll(doc, _) => (match doc.event
                                     case StopEvent => StopEvent
                                     case AbortEvent => AbortEvent
                                     case StartEvent => NoEvent
                                     case _ => e)
               case _ => e;
      LastRecorded(f, steps[1..])
  }

  lemma {:induction false} RunRecordsLast(j: Snapshot, steps: seq<Step>)
    requires Inv(j) && j.state.Running? && AllSound(steps)
    requires j.doc.result.NoResult? && j.doc.status.RunningStatus?
    requires forall k :: 0 <= k < |steps| ==> !steps[k].FinishRun?
    ensures var r := Run(j, steps);
            && r.state.Running? && (r.held ==> j.held)
            && r.doc == Doc(j.doc.id, LastRecorded(j.doc.event, steps), RunningStatus, NoResult)
    decreases |steps|
  {
    if steps == [] {
    } else {
      NextKeepsInv(j, steps[0]);
      RunningEndsByFinishing(j, steps[0]);
      if steps[0].Poll? {
        PolledJob(j, steps[0].doc, steps[0].fate);
      }
      RunRecordsLast(Next(j, steps[0]), steps[1..]);
    }
  }

  /**
   * From the beginning of an execution to the next one that finishes, with any events and any executions
   * that raise in between: the job stays scheduled exactly when the timer still lists it and the last event
   * recorded is not a stop, abort or removal; otherwise it is stopped and the timer does not list it. Until
   * then its document says that it is running and has no result.
   */
  lemma LastEventDecides(j: Snapshot, during: seq<Step>, result: Result)
    requires Inv(j) && j.execution.Dispatched? && AllSound(during)
    requires forall k :: 0 <= k < |during| ==> !during[k].FinishRun?
    requires Run(Begin(j), during).execution.Executing?
    ensures var before := Run(Begin(j), during);
            var after, last := Next(before, FinishRun(result)), LastRecorded(j.doc.event, during);
            && before.doc == Doc(j.doc.id, last, RunningStatus, NoResult)
            && after.execution.Idle?
            && (after.state.Scheduled? <==> before.held && !Leaving(last))
            && (!after.state.Scheduled? <==> after.state.Stop? && !after.held)
            && after.doc == Doc(j.doc.id,
                                if Leaving(last) && (before.held || last.RemoveEvent?) then NoEvent else last,
                                if last.RemoveEvent? then RemovedStatus
                                else if after.state.Scheduled? then ScheduledStatus
                                else CompletedStatus,
                                result)
  {
    RunRecordsLast(Begin(j), during);
  }

  /**
   * A start of a stopped job schedules it exactly when the timer takes it and still lists it; a job the
   * timer submitted and dropped at once is stopped but still runs; an unreadable schedule raises.
   */
  lemma StartOfStoppedJob(j: Snapshot, doc: Doc, fate: Fate)
    requires Inv(j) && j.state.Stop? && doc.event.StartEvent?
    ensures var o := ProcessEvent(j, doc, fate);
            && (o.raised <==> fate.Unreadable?)
            && (o.job.state.Scheduled? <==> fate.Accepted? || fate == FiredAtOnce(false))
            && (o.job.held <==> o.job.state.Scheduled?) && !o.job.state.Running?
            && (!o.raised ==> o.job.doc.status == if o.job.held then ScheduledStatus else CompletedStatus)
            && (o.job.execution.Dispatched? <==> j.execution.Dispatched? || fate.FiredAtOnce?)
            && o.job.doc == Doc(doc.id, NoEvent, o.job.doc.status, doc.result)
            && (o.raised ==> o.job == Snapshot(Stop, Doc(doc.id, NoEvent, StopStatus, doc.result), false, j.execution))
  {
  }

  // ---------- after a stop ----------

  /** Nothing is going to schedule the job, unless a start arrives. */
  predicate Quiet(j: Snapshot) {
    && !j.state.Scheduled?
    && (!j.held || (j.state.Running? && Leaving(j.doc.event)))
  }

  predicate NoStart(steps: seq<Step>) {
    forall k :: 0 <= k < |steps| ==> !(steps[k].Poll? && steps[k].doc.event.StartEvent?)
  }

  function Pending(j: Snapshot): nat {
    if j.execution.Dispatched? then 1 else 0
  }

  /** How many executions begin during `steps`. */
  function Begins(j: Snapshot, steps: seq<Step>): nat
    decreases |steps|
  {
    if steps == [] then 0
    else (if steps[0].BeginRun? && j.execution.Dispatched? then 1 else 0) + Begins(Next(j, steps[0]), steps[1..])
  }

  /** How many executions end by an exception during `steps`. */
  function Raises(j: Snapshot, steps: seq<Step>): nat
    decreases |steps|
  {
    if steps == [] then 0
    else (if steps[0].RaiseRun? && j.execution.Executing? then 1 else 0) + Raises(Next(j, steps[0]), steps[1..])
  }

  /** The timer can submit the job again although it has the running state, because its execution raised. */
  predicate LeftRunning(j: Snapshot) {
    j.held && j.execution.Idle? && j.state.Running?
  }

  /** The executions that a quiet job may still begin, unless one raises. */
  function StillToBegin(j: Snapshot): nat {
    Pending(j) + if LeftRunning(j) then 1 else 0
  }

  lemma QuietStays(j: Snapshot, step: Step)
    requires Inv(j) && Quiet(j) && step.Sound() && !(step.Poll? && step.doc.event.StartEvent?)
    ensures Quiet(Next(j, step))
    ensures StillToBegin(Next(j, step)) + Begins(j, [step]) <= StillToBegin(j) + Raises(j, [step])
  {
  }

  lemma FirstOfRun(j: Snapshot, steps: seq<Step>)
    requires steps != []
    ensures Begins(j, steps) == Begins(j, [steps[0]]) + Begins(Next(j, steps[0]), steps[1..])
    ensures Raises(j, steps) == Raises(j, [steps[0]]) + Raises(Next(j, steps[0]), steps[1..])
  {
  }

  lemma {:induction false} QuietRun(j: Snapshot, steps: seq<Step>)
    requires Inv(j) && Quiet(j) && AllSound(steps) && NoStart(steps)
    ensures Begins(j, steps) <= StillToBegin(j) + Raises(j, steps)
    ensures Quiet(Run(j, steps))
    decreases |steps|
  {
    if steps == [] {
    } else {
      QuietStays(j, steps[0]);
      NextKeepsInv(j, steps[0]);
      FirstOfRun(j, steps);
      QuietRun(Next(j, steps[0]), steps[1..]);
    }
  }

  /**
   * After a stop, whatever the job was doing, and with no new start: besides an execution submitted before,
   * and one more if the last one raised, an execution begins only for one that raises.
   */
  lemma StopBeginsAtMost(j: Snapshot, doc: Doc, fate: Fate, steps: seq<Step>)
    requires Inv(j) && doc.event.StopEvent? && AllSound(steps) && NoStart(steps)
    ensures var k := Next(j, Poll(doc, fate));
            && Begins(k, steps) <= StillToBegin(k) + Raises(k, steps)
            && (StillToBegin(k) <= if j.execution.Dispatched? || LeftRunning(j) then 1 else 0)
            && Quiet(Run(k, steps))
  {
    PolledJob(j, doc, fate);
    NextKeepsInv(j, Poll(doc, fate));
    QuietRun(Next(j, Poll(doc, fate)), steps);
  }

  /** Until a start, whatever else is polled and however the executions go, only so many executions begin. */
  ghost predicate Final(j: Snapshot) {
    exists b: nat {:trigger NoMoreThan(j, b)} :: NoMoreThan(j, b)
  }

  ghost predicate NoMoreThan(j: Snapshot, b: nat) {
    forall steps: seq<Step> :: AllSound(steps) && NoStart(steps) ==> Begins(j, steps) <= b
  }

  /** A running job that the timer lists begins any number of executions if they all raise, whatever is recorded. */
  lemma {:induction false} RaisingGoesOn(j: Snapshot, m: nat) returns (steps: seq<Step>)
    requires j.state.Running? && j.held
    ensures Untouched(steps) && Begins(j, steps) == m
    decreases m, match j.execution case Executing => 2 case Idle => 1 case Dispatched => 0
  {
    if m == 0 {
      steps := [];
    } else {
      var step := match j.execution
                  case Executing => RaiseRun
                  case Idle => Due(false)
                  case Dispatched => BeginRun;
      var rest := RaisingGoesOn(Next(j, step), if step.BeginRun? then m - 1 else m);
      steps := [step] + rest;
      assert steps[1..] == rest;
    }
  }

  /** A job that the timer does not list begins at most the execution that is waiting, until a start. */
  lemma {:induction false} UnlistedRun(j: Snapshot, steps: seq<Step>)
    requires Inv(j) && !j.held && AllSound(steps) && NoStart(steps)
    ensures Begins(j, steps) <= Pending(j)
    decreases |steps|
  {
    if steps == [] {
    } else {
      UnlistedStays(j, steps[0]);
      NextKeepsInv(j, steps[0]);
      FirstOfRun(j, steps);
      UnlistedRun(Next(j, steps[0]), steps[1..]);
    }
  }

  lemma UnlistedStays(j: Snapshot, step: Step)
    requires Inv(j) && !j.held && step.Sound() && !(step.Poll? && step.doc.event.StartEvent?)
    ensures !Next(j, step).held && Pending(Next(j, step)) + Begins(j, [step]) <= Pending(j)
  {
  }

  /** This is so exactly for a job that the timer does not list. */
  lemma FinalIff(j: Snapshot)
    requires Inv(j)
    ensures Final(j) <==> !j.held
  {
    if j.held {
      forall b: nat ensures !NoMoreThan(j, b) {
        var steps := GoingExceeds(j, b + 1, true);
      }
    } else {
      forall steps: seq<Step> | AllSound(steps) && NoStart(steps) ensures Begins(j, steps) <= Pending(j) {
        UnlistedRun(j, steps);
      }
      assert NoMoreThan(j, Pending(j));
    }
  }

  /** A stop is final unless it meets a running job that the timer lists. */
  lemma StopIsFinalIff(j: Snapshot, doc: Doc, fate: Fate)
    requires Inv(j) && doc.event.StopEvent?
    ensures Final(Next(j, Poll(doc, fate))) <==> !(j.state.Running? && j.held)
  {
    PolledJob(j, doc, fate);
    NextKeepsInv(j, Poll(doc, fate));
    FinalIff(Next(j, Poll(doc, fate)));
  }

  /**
   * An abort is final exactly when the timer does not list the job. It leaves a job quiet unless the job
   * waits in the timer: such a job is told that it is stopped but stays listed, and goes on executing.
   */
  lemma AbortIsFinalIff(j: Snapshot, doc: Doc, fate: Fate)
    requires Inv(j) && doc.event.AbortEvent?
    ensures var k := Next(j, Poll(doc, fate));
            && (Final(k) <==> !j.held)
            && (Quiet(k) <==> !j.state.Scheduled?)
            && (j.state.Scheduled? ==> k.state.Scheduled? && k.held == j.held && k.doc.status.StopStatus?)
  {
    PolledJob(j, doc, fate);
    NextKeepsInv(j, Poll(doc, fate));
    FinalIff(Next(j, Poll(doc, fate)));
  }

  /** A new job is started and raises, is stopped, and then begins any number of executions without a start. */
  lemma RaisingJobOutlastsStop(started: Doc, stopped: Doc, m: nat) returns (after: seq<Step>)
    requires started.event.StartEvent? && stopped.event.StopEvent?
    ensures var before := [Poll(started, Accepted), Due(false), BeginRun, RaiseRun, Poll(stopped, Accepted)];
            var k := Run(Snapshot(Stop, started, false, Idle), before);
            AllSound(before) && Untouched(after) && Pending(k) == 0 && Begins(k, after) == m
  {
    var j := Snapshot(Stop, started, false, Idle);
    var j1 := Next(j, Poll(started, Accepted));
    PolledJob(j, started, Accepted);
    assert j1.state.Scheduled? && j1.held && j1.execution.Idle?;
    var j4 := Next(Next(Next(j1, Due(false)), BeginRun), RaiseRun);
    assert LeftRunning(j4);
    PolledJob(j4, stopped, Accepted);
    var j5 := Next(j4, Poll(stopped, Accepted));
    RunOfFive(j, Poll(started, Accepted), Due(false), BeginRun, RaiseRun, Poll(stopped, Accepted));
    after := RaisingGoesOn(j5, m);
  }

  lemma RunOfFive(j: Snapshot, a: Step, b: Step, c: Step, d: Step, e: Step)
    ensures Run(j, [a, b, c, d, e]) == Next(Next(Next(Next(Next(j, a), b), c), d), e)
  {
    var j2 := Next(Next(j, a), b);
    RunOneMore(j, a, [b, c, d, e]);
    RunOneMore(Next(j, a), b, [c, d, e]);
    RunOneMore(j2, c, [d, e]);
    RunOneMore(Next(j2, c), d, [e]);
    RunOneMore(Next(Next(j2, c), d), e, []);
    assert [a, b, c, d, e] == [a] + [b, c, d, e] && [b, c, d, e] == [b] + [c, d, e];
    assert [c, d, e] == [c] + [d, e] && [d, e] == [d] + [e] && [e] == [e] + [];
  }

  lemma RunOneMore(j: Snapshot, step: Step, steps: seq<Step>)
    ensures Run(j, [step] + steps) == Run(Next(j, step), steps)
  {
    assert ([step] + steps)[1..] == steps;
  }

  // ---------- how many executions an event leads to ----------

  /** How many executions the timer submits during `steps`. */
  function Submissions(j: Snapshot, steps: seq<Step>): nat
    decreases |steps|
  {
    if steps == [] then 0
    else
      (if j.execution.Idle? && Next(j, steps[0]).execution.Dispatched? then 1 else 0)
      + Submissions(Next(j, steps[0]), steps[1..])
  }

  lemma StepSubmits(j: Snapshot, step: Step)
    requires step.Sound()
    ensures var k := Next(j, step);
            (if step.BeginRun? && j.execution.Dispatched? then 1 else 0) + Pending(k)
            == Pending(j) + (if j.execution.Idle? && k.execution.Dispatched? then 1 else 0)
  {
    if step.Poll? {
      PolledJob(j, step.doc, step.fate);
    }
  }

  /** Over every run: an execution begins once for every time the timer submitted it, or is still waiting. */
  lemma {:induction false} BegunAreSubmitted(j: Snapshot, steps: seq<Step>)
    requires AllSound(steps)
    ensures Begins(j, steps) + Pending(Run(j, steps)) == Pending(j) + Submissions(j, steps)
    decreases |steps|
  {
    if steps != [] {
      StepSubmits(j, steps[0]);
      BegunAreSubmitted(Next(j, steps[0]), steps[1..]);
    }
  }

  /** Until the next event: only the timer and the execution thread move. */
  predicate Untouched(steps: seq<Step>) {
    forall k :: 0 <= k < |steps| ==> !steps[k].Poll? && !steps[k].Remove?
  }

  /** No execution raises. */
  predicate NoneRaises(steps: seq<Step>) {
    forall k :: 0 <= k < |steps| ==> !steps[k].RaiseRun?
  }

  /**
   * However the timer and the executions go, no more than some number of executions begins; `raises` says
   * whether executions may raise.
   */
  ghost predicate Bounded(j: Snapshot, raises: bool) {
    exists b: nat {:trigger AtMost(j, b, raises)} :: AtMost(j, b, raises)
  }

  ghost predicate AtMost(j: Snapshot, b: nat, raises: bool) {
    forall steps: seq<Step> :: Untouched(steps) && (raises || NoneRaises(steps)) ==> Begins(j, steps) <= b
  }

  /** The timer lists the job, and no execution that finishes will take it off. */
  predicate Going(j: Snapshot, raises: bool) {
    j.held && (raises || !(j.state.Running? && Leaving(j.doc.event)))
  }

  lemma NotGoingStays(j: Snapshot, step: Step, raises: bool)
    requires Inv(j) && !Going(j, raises) && !step.Poll? && !step.Remove? && (raises || !step.RaiseRun?)
    ensures !Going(Next(j, step), raises)
    ensures StillToBegin(Next(j, step)) + Begins(j, [step]) <= StillToBegin(j)
  {
  }

  lemma {:induction false} NotGoingRunsOut(j: Snapshot, steps: seq<Step>, raises: bool)
    requires Inv(j) && !Going(j, raises) && Untouched(steps) && (raises || NoneRaises(steps))
    ensures Begins(j, steps) <= StillToBegin(j)
    decreases |steps|
  {
    if steps != [] {
      NotGoingStays(j, steps[0], raises);
      NextKeepsInv(j, steps[0]);
      FirstOfRun(j, steps);
      NotGoingRunsOut(Next(j, steps[0]), steps[1..], raises);
    }
  }

  /** A listed job can begin any number of executions. */
  lemma {:induction false} GoingKeepsRunning(j: Snapshot, m: nat) returns (steps: seq<Step>)
    requires Inv(j) && Going(j, false)
    ensures Untouched(steps) && NoneRaises(steps) && Begins(j, steps) == m
    decreases m, match j.execution case Executing => 2 case Idle => 1 case Dispatched => 0
  {
    if m == 0 {
      steps := [];
    } else {
      var step := match j.execution
                  case Executing => FinishRun(Success)
                  case Idle => Due(false)
                  case Dispatched => BeginRun;
      NextKeepsInv(j, step);
      var rest := GoingKeepsRunning(Next(j, step), if step.BeginRun? then m - 1 else m);
      steps := [step] + rest;
      assert steps[1..] == rest;
    }
  }

  lemma GoingExceeds(j: Snapshot, m: nat, raises: bool) returns (steps: seq<Step>)
    requires Inv(j) && Going(j, raises)
    ensures Untouched(steps) && (raises || NoneRaises(steps)) && Begins(j, steps) == m
  {
    if j.state.Running? && raises {
      steps := RaisingGoesOn(j, m);
    } else {
      steps := GoingKeepsRunning(j, m);
    }
  }

  /** The executions of a job are bounded exactly when it is not going on. */
  lemma BoundedIff(j: Snapshot, raises: bool)
    requires Inv(j)
    ensures Bounded(j, raises) <==> !Going(j, raises)
  {
    if Going(j, raises) {
      forall b: nat ensures !AtMost(j, b, raises) {
        var steps := GoingExceeds(j, b + 1, raises);
      }
    } else {
      forall steps: seq<Step> | Untouched(steps) && (raises || NoneRaises(steps))
        ensures Begins(j, steps) <= StillToBegin(j)
      {
        NotGoingRunsOut(j, steps, raises);
      }
      assert AtMost(j, StillToBegin(j), raises);
    }
  }

  /**
   * The executions that can begin after a polled event, until the next one, are bounded: after a stop unless
   * it meets a running job that is listed and executions may raise; after an abort unless the job is listed
   * and either waits in the timer or may raise; after a start exactly when the timer did not take the job,
   * or dropped it at once, or had dropped it before.
   */
  lemma EventBoundsIff(j: Snapshot, doc: Doc, fate: Fate, raises: bool)
    requires Inv(j) && doc.event.Recognised()
    ensures var k := Next(j, Poll(doc, fate));
            match doc.event
            case StopEvent => Bounded(k, raises) <==> !(j.held && j.state.Running? && raises)
            case AbortEvent => Bounded(k, raises) <==> !(j.held && (j.state.Scheduled? || raises))
            case StartEvent =>
              Bounded(k, raises) <==>
              if j.state.Stop? then !fate.Accepted? && fate != FiredAtOnce(false) else !j.held
            case _ => Bounded(k, raises) <==> Bounded(j, raises)
  {
    PolledJob(j, doc, fate);
    NextKeepsInv(j, Poll(doc, fate));
    BoundedIff(j, raises);
    BoundedIff(Next(j, Poll(doc, fate)), raises);
  }

  // ---------- a job that the timer dropped before its execution raised ----------

  /** It has the running state, and nothing that could end it. */
  predicate Stuck(j: Snapshot) {
    j.state.Running? && j.execution.Idle? && !j.held
  }

  /** No start, stop, abort, removal or step of the timer changes that. */
  lemma {:induction false} StuckForever(j: Snapshot, steps: seq<Step>)
    requires Inv(j) && Stuck(j) && AllSound(steps)
    ensures Inv(Run(j, steps)) && Stuck(Run(j, steps)) && !Run(j, steps).doc.status.RemovedStatus?
    ensures Begins(j, steps) == 0
    decreases |steps|
  {
    if steps == [] {
    } else {
      StuckStays(j, steps[0]);
      NextKeepsInv(j, steps[0]);
      FirstOfRun(j, steps);
      StuckForever(Next(j, steps[0]), steps[1..]);
    }
  }

  lemma StuckStays(j: Snapshot, step: Step)
    requires Inv(j) && Stuck(j) && step.Sound()
    ensures Stuck(Next(j, step)) && Begins(j, [step]) == 0
  {
    if step.Poll? {
      PolledJob(j, step.doc, step.fate);
    }
  }

  /** A job can still be removed exactly when it is not stuck. */
  lemma RemovableIff(j: Snapshot)
    requires Inv(j)
    ensures (exists steps {:trigger Run(j, steps)} :: AllSound(steps) && Run(j, steps).doc.status.RemovedStatus?)
            <==> !Stuck(j)
  {
    if Stuck(j) {
      forall steps | AllSound(steps) ensures !Run(j, steps).doc.status.RemovedStatus? {
        StuckForever(j, steps);
      }
    } else {
      var steps := RemovalSteps(j);
    }
  }

  /** The way to remove any other job: let it execute to the end, with a removal meanwhile. */
  lemma {:induction false} RemovalSteps(j: Snapshot) returns (steps: seq<Step>)
    requires Inv(j) && !Stuck(j)
    ensures AllSound(steps) && Run(j, steps).doc.status.RemovedStatus?
    decreases match j.execution case Idle => 2 case Dispatched => 1 case Executing => 0
  {
    if !j.state.Running? {
      steps := [Remove];
    } else if j.execution.Executing? {
      steps := [Remove, FinishRun(Success)];
      assert steps[1..] == [FinishRun(Success)];
    } else {
      var step := if j.execution.Idle? then Due(false) else BeginRun;
      NextKeepsInv(j, step);
      var rest := RemovalSteps(Next(j, step));
      steps := [step] + rest;
      assert steps[1..] == rest;
    }
  }

  /** The status a document shows for a running or scheduled job. */
  predicate Truthful(j: Snapshot) {
    && (j.state.Running? ==> j.doc.status.RunningStatus?)
    && (j.state.Scheduled? ==> j.doc.status.ScheduledStatus?)
  }

  /** The one step that makes a document untruthful is aborting a job that waits in the timer. */
  lemma StatusStaysTruthfulIff(j: Snapshot, step: Step)
    requires Inv(j) && Truthful(j) && step.Sound()
    ensures Truthful(Next(j, step)) <==> !(step.Poll? && step.doc.event.AbortEvent? && j.state.Scheduled?)
  {
  }
}
