/**
 * The bounded queue between a data source and a storage, and the two threads at its ends
 * (freezer/utils/streaming.py, freezer/storage/fslike.py:38-51).
 */
module Streaming {
  import opened Bytes

  /** A queue's content and flags at one moment; a bound that is not positive means unbounded. */
  datatype Queue = Queue(items: seq<Data>, bound: int, finished: bool, stopped: bool)
  {
    predicate Full() {
      bound > 0 && |items| >= bound
    }

    predicate WithinBound() {
      bound > 0 ==> |items| <= bound
    }
  }

  /** One turn of the loop in `put`: the message goes in, unless the queue stays full until the timeout. */
  function PutTurn(q: Queue, message: Data): (Queue, bool) {
    if q.Full() then (q, false) else (q.(items := q.items + [message]), true)
  }

  /** One `get`: the oldest message, or None when the queue stays empty until the timeout. */
  function GetTurn(q: Queue): (Queue, Option<Data>) {
    if q.items == [] then (q, None) else (q.(items := q.items[1..]), Some(q.items[0]))
  }

  class RichQueue {
    var items: seq<Data>
    const bound: int
    var finishTransmission: bool
    var isForceStop: bool

    constructor (size: int)
      ensures View() == Queue([], size, false, false)
    {
      items, bound, finishTransmission, isForceStop := [], size, false, false;
    }

    function View(): Queue
      reads this
    {
      Queue(items, bound, finishTransmission, isForceStop)
    }

    method Finish()
      modifies this
      ensures View() == old(View()).(finished := true)
    {
      finishTransmission := true;
    }

    method ForceStop()
      modifies this
      ensures View() == old(View()).(stopped := true)
    {
      isForceStop := true;
    }

    method PutOnce(message: Data) returns (sent: bool)
      modifies this
      ensures (View(), sent) == PutTurn(old(View()), message)
      ensures sent <==> !old(View()).Full()
      ensures old(View()).WithinBound() ==> View().WithinBound()
    {
      sent := bound <= 0 || |items| < bound;
      if sent {
        items := items + [message];
      }
    }

    method GetOnce() returns (r: Option<Data>)
      modifies this
      ensures (View(), r) == GetTurn(old(View()))
      ensures old(items) == (if r.Some? then [r.value] else []) + items
    {
      if items == [] {
        return None;
      }
      r := Some(items[0]);
      items := items[1..];
    }
  }

  // ---------- the thread that fills a queue ----------

  /** A thread that raises records its exception, then force-stops its queue, then ends. */
  datatype ProducerState = Running | TimedOut | Finished | Raising | Reported | Failed

  datatype Producer = Producer(state: ProducerState, sent: seq<Data>, reported: bool)
  {
    predicate Ended() {
      state.Finished? || state.Failed?
    }
  }

  /** One step of `put_messages` over the source; `fault` lets the source raise. */
  function ProducerStep(source: seq<Data>, q: Queue, p: Producer, fault: bool): (Queue, Producer) {
    match p.state
    case Running =>
      if fault then (q, p.(state := ProducerState.Raising))
      else if |p.sent| < |source| then
        var (q', sent) := PutTurn(q, source[|p.sent|]);
        (q', if sent then p.(sent := p.sent + [source[|p.sent|]]) else p.(state := TimedOut))
      else (q.(finished := true), p.(state := Finished))
    case TimedOut => (q, p.(state := if q.stopped then ProducerState.Raising else Running))
    case Raising => (q, p.(state := ProducerState.Reported, reported := true))
    case Reported => (q.(stopped := true), p.(state := ProducerState.Failed))
    case _ => (q, p)
  }

  // ---------- the thread that drains a queue into a file ----------

  datatype ConsumerState =
    | Opening
    | CheckStop
    | CheckFinish
    | CheckEmpty
    | Getting
    | AfterWait
    | Writing(message: Data)
    | Closing
    | Done
    | Raising
    | Reported
    | Failed

  /** `written` was given to the open file, and is what reached it once the file is closed. */
  datatype Consumer = Consumer(state: ConsumerState, received: seq<Data>, written: Data, reported: bool)
  {
    predicate Ended() {
      state.Done? || state.Failed?
    }

    /** What was given to the file when the current operation is counted in. */
    function Handed(): Data {
      written + if state.Writing? then state.message else []
    }

    /** The file is closed behind an exception; a fault lets that many bytes reach it. */
    function Raise(fault: Option<nat>): Consumer {
      var kept := if fault.Some? then Handed()[..Min(fault.value, |Handed()|)] else Handed();
      this.(state := ConsumerState.Raising, written := kept)
    }
  }

  /**
   * One step of `write_backup` over `get_messages`. `fault` lets the file operation of this step raise,
   * a forced stop closes the file too. Writes are buffered, so that whatever a failed write or close leaves
   * is a prefix of all that was written.
   */
  function ConsumerStep(q: Queue, c: Consumer, fault: Option<nat>): (Queue, Consumer) {
    match c.state
    case Opening => (q, if fault.Some? then c.Raise(fault) else c.(state := CheckStop))
    case CheckStop => (q, if q.stopped then c.Raise(fault) else c.(state := CheckFinish))
    case CheckFinish => (q, c.(state := if q.finished then CheckEmpty else Getting))
    case CheckEmpty => (q, c.(state := if q.items == [] then Closing else Getting))
    case Getting =>
      var (q', r) := GetTurn(q);
      (q', if r.None? then c.(state := AfterWait)
           else c.(state := Writing(r.value), received := c.received + [r.value]))
    case AfterWait => (q, if q.stopped then c.Raise(fault) else c.(state := CheckStop))
    case Writing(m) => (q, if fault.Some? then c.Raise(fault) else c.(state := CheckStop, written := c.written + m))
    case Closing => (q, if fault.Some? then c.Raise(fault) else c.(state := Done))
    case Raising => (q, c.(state := ConsumerState.Reported, reported := true))
    case Reported => (q.(stopped := true), c.(state := ConsumerState.Failed))
    case _ => (q, c)
  }

  // ---------- what each end keeps, whatever the other one does ----------

  /**
   * `sent` is what was put on the queue so far. Nothing is lost or reordered, the file holds what was
   * received, or a prefix of it after a failure, and a loop that ended normally had seen the finish flag
   * and then an empty queue.
   */
  ghost predicate ConsumerOk(q: Queue, c: Consumer, sent: seq<Data>) {
    && q.WithinBound()
    && c.received + q.items == sent
    && (c.reported <==> c.state.Reported? || c.state.Failed?)
    && match c.state
       case Opening => c.received == [] && c.written == []
       case Writing(m) => c.received != [] && m == c.received[|c.received| - 1]
                          && c.written == Flatten(c.received[..|c.received| - 1])
       case CheckEmpty => q.finished && c.written == Flatten(c.received)
       case Closing => q.finished && q.items == [] && c.written == Flatten(c.received)
       case Done => q.finished && q.items == [] && c.written == Flatten(c.received)
       case Raising => c.written <= Flatten(c.received)
       case Reported => c.written <= Flatten(c.received)
       case Failed => c.written <= Flatten(c.received)
       case _ => c.written == Flatten(c.received)
  }

  lemma ConsumerStepKeeps(q: Queue, c: Consumer, sent: seq<Data>, fault: Option<nat>)
    requires ConsumerOk(q, c, sent)
    ensures var (q', c') := ConsumerStep(q, c, fault); ConsumerOk(q', c', sent)
  {
    match c.state
    case Getting =>
      if q.items != [] {
        var m := q.items[0];
        assert (c.received + [m])[..|c.received|] == c.received;
        assert (c.received + [m]) + q.items[1..] == c.received + q.items;
      }
    case Writing(m) => WritingKeeps(q, c, sent, fault);
    case _ =>
  }

  lemma WritingKeeps(q: Queue, c: Consumer, sent: seq<Data>, fault: Option<nat>)
    requires ConsumerOk(q, c, sent) && c.state.Writing?
    ensures var (q', c') := ConsumerStep(q, c, fault); ConsumerOk(q', c', sent)
  {
    var p := c.received[..|c.received| - 1];
    assert c.received == p + [c.state.message];
    FlattenSnoc(p, c.state.message);
  }

  // ---------- the file a failed storage thread leaves ----------

  lemma FlattenPrefix(a: seq<Data>, b: seq<Data>)
    requires a <= b
    ensures Flatten(b) == Flatten(a) + Flatten(b[|a|..])
  {
    FlattenAppend(a, b[|a|..]);
    assert a + b[|a|..] == b;
  }

  /** At every moment the file holds a prefix of what was put on the queue. */
  lemma FileIsPrefix(q: Queue, c: Consumer, sent: seq<Data>)
    requires ConsumerOk(q, c, sent)
    ensures c.written <= Flatten(c.received) <= Flatten(sent)
  {
    FlattenPrefix(c.received, sent);
    if c.received != [] {
      FlattenPrefix(c.received[..|c.received| - 1], c.received);
    }
  }

  predicate AllEmpty(messages: seq<Data>) {
    forall k :: 0 <= k < |messages| ==> messages[k] == []
  }

  lemma {:induction false} AllEmptyIff(messages: seq<Data>)
    ensures Flatten(messages) == [] <==> AllEmpty(messages)
  {
    if messages != [] {
      AllEmptyIff(messages[1..]);
      assert messages == [messages[0]] + messages[1..];
    }
  }

  /** The thread raises in this step: at the open, at a check, while writing or at the close. */
  predicate Fails(q: Queue, c: Consumer, fault: Option<nat>) {
    !c.state.Raising? && ConsumerStep(q, c, fault).1.state.Raising?
  }

  /** Nothing is missing after such a step: all that was written reached the file, and only empty messages are left. */
  predicate FailsComplete(source: seq<Data>, c: Consumer, fault: Option<nat>) {
    && (fault.Some? ==> fault.value >= |c.Handed()|)
    && |c.received| <= |source| && AllEmpty(source[|c.received|..])
  }

  /** That is exactly when the file that the failed thread leaves is complete. */
  lemma FailingStepCompletesIff(source: seq<Data>, q: Queue, c: Consumer, sent: seq<Data>, fault: Option<nat>)
    requires ConsumerOk(q, c, sent) && sent <= source && Fails(q, c, fault)
    ensures ConsumerStep(q, c, fault).1.written == Flatten(source) <==> FailsComplete(source, c, fault)
  {
    FlattenPrefix(c.received, source);
    AllEmptyIff(source[|c.received|..]);
    HandedIsReceived(q, c, sent);
    PartIsAll(c.Handed(), Flatten(source[|c.received|..]), if fault.Some? then fault.value else |c.Handed()|);
  }

  /** At every operation of the file, all that was received has been written with it. */
  lemma HandedIsReceived(q: Queue, c: Consumer, sent: seq<Data>)
    requires ConsumerOk(q, c, sent) && !c.state.Raising? && !c.state.Reported? && !c.state.Failed?
    ensures c.Handed() == Flatten(c.received)
  {
    if c.state.Writing? {
      var p, m := c.received[..|c.received| - 1], c.state.message;
      assert c.received == p + [m];
      FlattenSnoc(p, m);
    } else {
      assert c.written + [] == c.written;
    }
  }

  lemma PartIsAll(all: Data, after: Data, k: nat)
    ensures all[..Min(k, |all|)] == all + after <==> k >= |all| && after == []
  {
    if all[..Min(k, |all|)] == all + after {
      assert |all[..Min(k, |all|)]| == |all + after|;
    }
    if k >= |all| && after == [] {
      assert all[..|all|] == all + [];
    }
  }

  /** The finish flag stands for a completely sent source, and only the producer sets it. */
  ghost predicate ProducerOk(source: seq<Data>, q: Queue, p: Producer) {
    && |p.sent| <= |source| && p.sent == source[..|p.sent|]
    && (q.finished <==> p.state.Finished?)
    && (p.state.Finished? ==> p.sent == source)
    && (p.reported <==> p.state.Reported? || p.state.Failed?)
    && (p.state.Failed? ==> q.stopped)
  }

  lemma ProducerStepKeeps(source: seq<Data>, q: Queue, p: Producer, c: Consumer, fault: bool)
    requires ProducerOk(source, q, p) && ConsumerOk(q, c, p.sent)
    ensures var (q', p') := ProducerStep(source, q, p, fault);
            ProducerOk(source, q', p') && ConsumerOk(q', c, p'.sent)
  {
  }

  // ---------- a stopped queue brings both ends to an end ----------

  function ProducerLeft(source: seq<Data>, p: Producer): nat
    requires |p.sent| <= |source|
  {
    match p.state
    case Running => 4 + |source| - |p.sent|
    case TimedOut => 3
    case Raising => 2
    case Reported => 1
    case _ => 0
  }

  function ConsumerLeft(c: Consumer): nat {
    match c.state
    case Opening => 8
    case CheckFinish => 7
    case CheckEmpty => 6
    case Getting => 5
    case Writing(_) => 4
    case AfterWait => 4
    case CheckStop => 3
    case Closing => 3
    case Raising => 2
    case Reported => 1
    case _ => 0
  }

  /** Once the queue is force-stopped, every step of the source thread brings it closer to its end. */
  lemma StoppedProducerWindsDown(source: seq<Data>, q: Queue, p: Producer, fault: bool)
    requires q.stopped && |p.sent| <= |source|
    ensures p.Ended() <==> ProducerLeft(source, p) == 0
    ensures var (q', p') := ProducerStep(source, q, p, fault);
            && q'.stopped && |p'.sent| <= |source|
            && if p.Ended() then p' == p else ProducerLeft(source, p') < ProducerLeft(source, p)
  {
  }

  /** And so does every step of the storage thread. */
  lemma StoppedConsumerWindsDown(q: Queue, c: Consumer, fault: Option<nat>)
    requires q.stopped
    ensures c.Ended() <==> ConsumerLeft(c) == 0
    ensures var (q', c') := ConsumerStep(q, c, fault);
            q'.stopped && if c.Ended() then c' == c else ConsumerLeft(c') < ConsumerLeft(c)
  {
  }

  // ---------- both ends get on, unless they wait for the other one ----------

  /** What the source thread has left to do; while the queue is full and not stopped it waits. */
  function ProducerWork(source: seq<Data>, q: Queue, p: Producer): nat
    requires |p.sent| <= |source|
  {
    match p.state
    case Running => 3 * (1 + |source| - |p.sent|) + if q.Full() then 2 else 0
    case TimedOut => 3 * (1 + |source| - |p.sent|) + if q.Full() && !q.stopped then 2 else 1
    case Raising => 2
    case Reported => 1
    case _ => 0
  }

  /** The thread has not ended and does not wait. */
  predicate ProducerCan(q: Queue, p: Producer) {
    !p.Ended() && (!q.Full() || q.stopped || p.state.Raising? || p.state.Reported?)
  }

  /** Whatever raises: a step adds no work, and takes some away unless the thread waits. */
  lemma ProducerGetsOn(source: seq<Data>, q: Queue, p: Producer, fault: bool)
    requires |p.sent| <= |source|
    ensures var (q', p') := ProducerStep(source, q, p, fault);
            && |p'.sent| <= |source|
            && (if ProducerCan(q, p) then ProducerWork(source, q', p') < ProducerWork(source, q, p)
                else ProducerWork(source, q', p') <= ProducerWork(source, q, p))
  {
  }

  /** How far the storage thread is from taking a message, or from the close of the file, or from raising. */
  function Distance(state: ConsumerState, some: bool, finished: bool): nat {
    match state
    case Getting => if some then 0 else 5
    case Closing => 0
    case CheckEmpty => 1
    case CheckFinish => if some || finished then 2 else 6
    case CheckStop => 3
    case _ => 4
  }

  /** What the storage thread has left to do of `total` messages; while the queue is empty and open it waits. */
  function ConsumerWork(total: nat, q: Queue, c: Consumer): nat
    requires |c.received| <= total
  {
    match c.state
    case Raising => 2
    case Reported => 1
    case Done => 0
    case Failed => 0
    case state =>
      8 * (1 + total - |c.received|)
      + if q.items == [] && !q.finished && !q.stopped then 7 else Distance(state, q.items != [], q.finished)
  }

  predicate ConsumerCan(q: Queue, c: Consumer) {
    !c.Ended() && (q.items != [] || q.finished || q.stopped || c.state.Raising? || c.state.Reported?)
  }

  lemma ConsumerGetsOn(total: nat, q: Queue, c: Consumer, sent: seq<Data>, fault: Option<nat>)
    requires ConsumerOk(q, c, sent) && |sent| <= total
    ensures var (q', c') := ConsumerStep(q, c, fault);
            && |c.received| <= total && |c'.received| <= total
            && (if ConsumerCan(q, c) then ConsumerWork(total, q', c') < ConsumerWork(total, q, c)
                else ConsumerWork(total, q', c') <= ConsumerWork(total, q, c))
  {
    if c.state.Getting? {
      assert |c.received + q.items| == |sent|;
    }
  }

  /** What one end does to the queue adds nothing to the work of the other, and does not make it wait. */
  lemma ProducerHelps(source: seq<Data>, total: nat, q: Queue, p: Producer, c: Consumer, fault: bool)
    requires |p.sent| <= |source| && |c.received| <= total && ConsumerOk(q, c, p.sent)
    ensures var (q', p') := ProducerStep(source, q, p, fault);
            && ConsumerWork(total, q', c) <= ConsumerWork(total, q, c)
            && (ConsumerCan(q, c) ==> ConsumerCan(q', c))
  {
  }

  lemma ConsumerHelps(source: seq<Data>, q: Queue, p: Producer, c: Consumer, fault: Option<nat>)
    requires |p.sent| <= |source|
    ensures var (q', c') := ConsumerStep(q, c, fault);
            && ProducerWork(source, q', p) <= ProducerWork(source, q, p)
            && (ProducerCan(q, p) ==> ProducerCan(q', p))
  {
  }

  // ---------- nothing has raised ----------

  predicate ProducerWell(p: Producer) {
    p.state.Running? || p.state.TimedOut? || p.state.Finished?
  }

  predicate ConsumerWell(c: Consumer) {
    !c.state.Raising? && !c.state.Reported? && !c.state.Failed?
  }
}
