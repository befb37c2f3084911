/**
 * Every broadcast comes to its end, whatever raises, and without a fault with every storage whole
 * (freezer/storage/multiple.py:42-75, 150-174).
 */
module BroadcastEnds {
  import opened Bytes
  import opened Streaming
  import opened Broadcast

  datatype Thread = SourceThread | ManagerThread | StorageThread(child: nat) | MainThread

  function Mover(a: Action): Thread {
    match a
    case ProducerMoves(_) => SourceThread
    case ManagerMoves => ManagerThread
    case ChildMoves(j, _) => StorageThread(j)
    case MainMoves(_) => MainThread
  }

  predicate Over(m: MainState) {
    m.Published? || m.Aborted?
  }

  // ---------- what else every run keeps ----------

  /** A storage thread that failed has stopped its queue. */
  predicate ChildStops(s: System, j: nat)
    requires j < |s.outputs| == |s.children|
  {
    s.children[j].state.Failed? ==> s.outputs[j].stopped
  }

  /** The first `k` storages have all parts of the backup. */
  predicate WholeBefore(stored: seq<Stored>, k: nat) {
    forall j :: 0 <= j < k && j < |stored| ==> stored[j] == Stored(true, true, true)
  }

  /** How far the publication has come. */
  predicate Placed(s: System, n: nat)
    requires Shape(s, n)
  {
    match s.main
    case Publishing(j, step) =>
      && j <= n && step <= 2 && (j == n ==> step == 0) && WholeBefore(s.stored, j)
      && (j < n ==> (step >= 1 ==> s.stored[j].engineMeta) && (step >= 2 ==> s.stored[j].visible))
    case Published => WholeBefore(s.stored, n)
    case _ => true
  }

  predicate Dying(m: Manager) {
    m.state.StopAll? || m.state.Rethrow? || m.Reported()
  }

  /** The input is stopped only by its own thread, or by the broadcasting thread on its way to the end. */
  predicate InputStops(s: System) {
    s.input.stopped ==> s.producer.state.Failed? || Dying(s.manager)
  }

  ghost predicate Good(source: seq<Data>, s: System, n: nat) {
    && Inv(source, s, n) && Placed(s, n) && InputStops(s)
    && forall j :: 0 <= j < n ==> ChildStops(s, j)
  }

  // ---------- what is left to do ----------

  /** How far the broadcasting thread is from a look at the stop flag, and then from the next message. */
  function Loop(state: ManagerState): nat {
    match state
    case Taking => 0
    case LookEmpty => 1
    case LookFinish => 2
    case LookStop => 3
    case _ => 4
  }

  /** The same when nothing is left to take: from the end of the input, or from raising when it was stopped. */
  function LastLoop(state: ManagerState): nat {
    match state
    case Waited => 4
    case LookStop => 3
    case LookFinish => 6
    case _ => 5
  }

  function SendDistance(s: System, n: nat, k: nat, out: bool): nat
    requires Shape(s, n)
  {
    n + 9 + if k >= n then if out then 1 else 0
            else 3 * (n - k) + if s.outputs[k].Full() && !(out && s.outputs[k].stopped) then 2 else if out then 1 else 0
  }

  /** How far the broadcasting thread is from taking the next message, or from its end. */
  function ManagerDistance(s: System, n: nat): nat
    requires Shape(s, n)
  {
    match s.manager.state
    case Sending(_, k) => SendDistance(s, n, k, false)
    case SendTimedOut(_, k) => SendDistance(s, n, k, true)
    case Finishing(k) => if k >= n then 2 else 2 + n - k
    case AwaitChildren => 1
    case state =>
      if s.input.items != [] then Loop(state)
      else if s.input.finished then n + 3 + if state.Taking? then 4 else Loop(state) - Min(1, Loop(state))
      else if s.input.stopped then LastLoop(state)
      else n + 8
  }

  /** How many moves the broadcasting thread needs to stop all queues and end. */
  function DyingLeft(m: Manager, n: nat): nat {
    match m.state
    case StopAll(k) => if k > n + 1 then 3 else n + 4 - k
    case Rethrow => 2
    case Recorded => 1
    case _ => 0
  }

  function Rounds(n: nat, left: nat): nat {
    if left == 0 then 0 else 4 * n + 16 + Rounds(n, left - 1)
  }

  function ManagerWork(source: seq<Data>, s: System, n: nat): nat
    requires Shape(s, n)
  {
    if Dying(s.manager) then DyingLeft(s.manager, n)
    else if s.manager.state.Returned? then 0
    else Rounds(n, Max(0, |source| - |s.manager.taken|)) + n + 5 + ManagerDistance(s, n)
  }

  function ChildWork(source: seq<Data>, s: System, j: nat): nat
    requires j < |s.outputs| == |s.children|
  {
    if |s.children[j].received| <= |source| then ConsumerWork(|source|, s.outputs[j], s.children[j]) else 0
  }

  function ChildrenWork(source: seq<Data>, s: System, k: nat): nat
    requires k <= |s.outputs| == |s.children|
  {
    if k == 0 then 0 else ChildrenWork(source, s, k - 1) + ChildWork(source, s, k - 1)
  }

  function MainWork(s: System, n: nat): nat {
    match s.main
    case AwaitThreads => 3 * n + 2
    case Publishing(j, step) => if j >= n || step > 2 then 1 else 3 * (n - j) - step + 1
    case _ => 0
  }

  function SourceWork(source: seq<Data>, s: System): nat {
    if |s.producer.sent| <= |source| then ProducerWork(source, s.input, s.producer) else 0
  }

  function Work(source: seq<Data>, s: System, n: nat): nat
    requires Shape(s, n)
  {
    SourceWork(source, s) + ManagerWork(source, s, n) + ChildrenWork(source, s, n) + MainWork(s, n)
  }

  predicate CanSend(s: System, n: nat, k: nat)
    requires Shape(s, n)
  {
    k >= n || !s.outputs[k].Full() || s.outputs[k].stopped
  }

  /** The thread does not wait for another one and has not ended. */
  predicate ManagerCan(s: System, n: nat)
    requires Shape(s, n)
  {
    match s.manager.state
    case Sending(_, k) => CanSend(s, n, k)
    case SendTimedOut(_, k) => CanSend(s, n, k)
    case AwaitChildren => forall j :: 0 <= j < n ==> s.children[j].Ended()
    case Returned => false
    case Dead => false
    case Finishing(_) => true
    case StopAll(_) => true
    case Rethrow => true
    case Recorded => true
    case _ => s.input.items != [] || s.input.finished || s.input.stopped
  }

  predicate Can(s: System, n: nat, t: Thread)
    requires Shape(s, n)
  {
    match t
    case SourceThread => ProducerCan(s.input, s.producer)
    case ManagerThread => ManagerCan(s, n)
    case StorageThread(j) => j < n && ConsumerCan(s.outputs[j], s.children[j])
    case MainThread => s.producer.Ended() && s.manager.Ended() && !Over(s.main)
  }

  // ---------- the sum over the storages ----------

  lemma {:induction false} ChildrenNoMore(source: seq<Data>, s: System, r: System, k: nat)
    requires k <= |s.outputs| == |s.children| && k <= |r.outputs| == |r.children|
    requires forall j :: 0 <= j < k ==> ChildWork(source, r, j) <= ChildWork(source, s, j)
    ensures ChildrenWork(source, r, k) <= ChildrenWork(source, s, k)
  {
    if k > 0 {
      ChildrenNoMore(source, s, r, k - 1);
    }
  }

  lemma {:induction false} OneChildLess(source: seq<Data>, s: System, r: System, k: nat, i: nat)
    requires i < k <= |s.outputs| == |s.children| && k <= |r.outputs| == |r.children|
    requires forall j :: 0 <= j < k ==> ChildWork(source, r, j) <= ChildWork(source, s, j)
    requires ChildWork(source, r, i) < ChildWork(source, s, i)
    ensures ChildrenWork(source, r, k) < ChildrenWork(source, s, k)
  {
    if i == k - 1 {
      ChildrenNoMore(source, s, r, k - 1);
    } else {
      OneChildLess(source, s, r, k - 1, i);
    }
  }

  lemma SentIsBounded(source: seq<Data>, s: System, n: nat, j: nat)
    requires Inv(source, s, n) && j < n
    ensures |s.manager.sentTo[j]| <= |s.manager.taken| <= |source| && |s.children[j].received| <= |source|
  {
    var m := s.manager;
    assert |m.taken + s.input.items| == |s.producer.sent|;
    assert SomeSent(m.taken, m.sentTo);
    assert OutputOk(s, j);
    assert |s.children[j].received + s.outputs[j].items| == |m.sentTo[j]|;
  }

  // ---------- a step of each thread ----------

  lemma SourceStep(source: seq<Data>, s: System, n: nat, fault: bool)
    requires Good(source, s, n)
    ensures var r := Next(source, n, s, ProducerMoves(fault));
            && r.main == s.main && r.stored == s.stored && r.outputs == s.outputs && r.children == s.children
            && Work(source, r, n) <= Work(source, s, n)
            && (Can(s, n, SourceThread) ==> Work(source, r, n) < Work(source, s, n))
            && (ManagerCan(s, n) ==> ManagerCan(r, n))
  {
    ProducerGetsOn(source, s.input, s.producer, fault);
    var r := Next(source, n, s, ProducerMoves(fault));
    ChildrenNoMore(source, s, r, n);
    SourceHelpsManager(source, s, n, fault);
  }

  lemma SourceHelpsManager(source: seq<Data>, s: System, n: nat, fault: bool)
    requires Good(source, s, n)
    ensures var r := Next(source, n, s, ProducerMoves(fault));
            ManagerWork(source, r, n) <= ManagerWork(source, s, n) && (ManagerCan(s, n) ==> ManagerCan(r, n))
  {
  }

  lemma ChildGetsOn(source: seq<Data>, s: System, n: nat, j: nat, partial: Option<nat>)
    requires Good(source, s, n) && j < n
    ensures var r := Next(source, n, s, ChildMoves(j, partial));
            && ChildStops(r, j) && ChildWork(source, r, j) <= ChildWork(source, s, j)
            && (ConsumerCan(s.outputs[j], s.children[j]) ==> ChildWork(source, r, j) < ChildWork(source, s, j))
            && (r.outputs[j].Full() ==> s.outputs[j].Full()) && (s.children[j].Ended() ==> r.children[j].Ended())
            && (s.outputs[j].stopped ==> r.outputs[j].stopped)
  {
    assert OutputOk(s, j) && ChildStops(s, j);
    SentIsBounded(source, s, n, j);
    ConsumerGetsOn(|source|, s.outputs[j], s.children[j], s.manager.sentTo[j], partial);
  }

  lemma ChildStep(source: seq<Data>, s: System, n: nat, j: nat, partial: Option<nat>)
    requires Good(source, s, n) && j < n
    ensures var r := Next(source, n, s, ChildMoves(j, partial));
            && Placed(r, n) && (forall i :: 0 <= i < n ==> ChildStops(r, i))
            && Work(source, r, n) <= Work(source, s, n)
            && (Can(s, n, StorageThread(j)) ==> Work(source, r, n) < Work(source, s, n))
            && (ManagerCan(s, n) ==> ManagerCan(r, n))
  {
    var r := Next(source, n, s, ChildMoves(j, partial));
    ChildGetsOn(source, s, n, j, partial);
    forall i | 0 <= i < n ensures ChildWork(source, r, i) <= ChildWork(source, s, i) && ChildStops(r, i) {
      assert ChildStops(s, i);
    }
    ChildrenNoMore(source, s, r, n);
    if ConsumerCan(s.outputs[j], s.children[j]) {
      OneChildLess(source, s, r, n, j);
    }
    ManagerUnhindered(source, s, r, n);
  }

  /** A storage thread that takes a message out, or stops its queue, does not keep the broadcasting thread back. */
  lemma ManagerUnhindered(source: seq<Data>, s: System, r: System, n: nat)
    requires Shape(s, n) && Shape(r, n) && r.manager == s.manager && r.input == s.input
    requires forall i :: 0 <= i < n ==> r.outputs[i].Full() ==> s.outputs[i].Full()
    requires forall i :: 0 <= i < n && s.outputs[i].stopped ==> r.outputs[i].stopped
    requires forall i :: 0 <= i < n && s.children[i].Ended() ==> r.children[i].Ended()
    ensures ManagerWork(source, r, n) <= ManagerWork(source, s, n)
    ensures ManagerCan(s, n) ==> ManagerCan(r, n)
  {
  }

  lemma MainStepWorks(source: seq<Data>, s: System, n: nat, failed: bool)
    requires Good(source, s, n)
    ensures var r := Next(source, n, s, MainMoves(failed));
            && Placed(r, n) && r.outputs == s.outputs && r.children == s.children
            && Work(source, r, n) <= Work(source, s, n)
            && (Can(s, n, MainThread) ==> Work(source, r, n) < Work(source, s, n))
            && (ManagerCan(s, n) ==> ManagerCan(r, n))
  {
    var r := Next(source, n, s, MainMoves(failed));
    MainGetsOn(s, n, failed);
    assert r.(main := s.main, stored := s.stored) == s;
    ChildrenNoMore(source, s, r, n);
    ManagerUnhindered(source, s, r, n);
  }

  lemma MainGetsOn(s: System, n: nat, failed: bool)
    requires Shape(s, n) && Placed(s, n)
    ensures var r := MainStep(s, n, failed);
            && Placed(r, n) && MainWork(r, n) <= MainWork(s, n)
            && (Can(s, n, MainThread) ==> MainWork(r, n) < MainWork(s, n))
  {
  }

  /** What the broadcasting thread can do to a queue: nothing, a put, or setting a flag. */
  predicate Served(q: Queue, q': Queue) {
    || q' == q
    || (!q.finished && |q'.items| == |q.items| + 1 && q' == q.(items := q'.items))
    || q' == q.(finished := true)
    || q' == q.(stopped := true)
  }

  lemma ManagerServes(s: System, n: nat, j: nat)
    requires Shape(s, n) && j < n && OutputOk(s, j)
    ensures var r := ManagerStep(s, n);
            Served(s.outputs[j], r.outputs[j]) && r.children == s.children
            && (s.outputs[j].stopped ==> r.outputs[j].stopped)
  {
  }

  lemma ServedHelps(total: nat, q: Queue, q': Queue, c: Consumer, sent: seq<Data>)
    requires Served(q, q') && ConsumerOk(q, c, sent) && |c.received| <= total
    ensures ConsumerWork(total, q', c) <= ConsumerWork(total, q, c)
    ensures ConsumerCan(q, c) ==> ConsumerCan(q', c)
  {
  }

  /** The step of the broadcasting thread, seen from one storage. */
  lemma ManagerHelpsChild(source: seq<Data>, s: System, n: nat, j: nat)
    requires Good(source, s, n) && j < n
    ensures var r := ManagerStep(s, n);
            && ChildStops(r, j) && ChildWork(source, r, j) <= ChildWork(source, s, j)
            && (ConsumerCan(s.outputs[j], s.children[j]) ==> ConsumerCan(r.outputs[j], r.children[j]))
  {
    assert ChildStops(s, j) && OutputOk(s, j);
    SentIsBounded(source, s, n, j);
    ManagerServes(s, n, j);
    ServedHelps(|source|, s.outputs[j], ManagerStep(s, n).outputs[j], s.children[j], s.manager.sentTo[j]);
  }

  lemma MoreRounds(n: nat, left: nat)
    requires left > 0
    ensures Rounds(n, left) == 4 * n + 16 + Rounds(n, left - 1)
  {
  }

  lemma ManagerGetsOn(source: seq<Data>, s: System, n: nat)
    requires Good(source, s, n)
    ensures var r := ManagerStep(s, n);
            if ManagerCan(s, n) then ManagerWork(source, r, n) < ManagerWork(source, s, n)
            else ManagerWork(source, r, n) <= ManagerWork(source, s, n)
  {
    var m := s.manager;
    if m.state.Taking? && s.input.items != [] {
      TakingGetsOn(source, s, n);
    } else if m.state.Sending? || m.state.SendTimedOut? {
      SendingGetsOn(source, s, n);
    }
  }

  lemma SendingGetsOn(source: seq<Data>, s: System, n: nat)
    requires Good(source, s, n) && (s.manager.state.Sending? || s.manager.state.SendTimedOut?)
    ensures var r := ManagerStep(s, n);
            if ManagerCan(s, n) then ManagerWork(source, r, n) < ManagerWork(source, s, n)
            else ManagerWork(source, r, n) <= ManagerWork(source, s, n)
  {
  }

  lemma TakingGetsOn(source: seq<Data>, s: System, n: nat)
    requires Good(source, s, n) && s.manager.state.Taking? && s.input.items != []
    ensures ManagerWork(source, ManagerStep(s, n), n) < ManagerWork(source, s, n)
  {
    assert |s.manager.taken + s.input.items| == |s.producer.sent|;
    MoreRounds(n, |source| - |s.manager.taken|);
  }

  lemma ManagerStepWorks(source: seq<Data>, s: System, n: nat)
    requires Good(source, s, n)
    ensures var r := ManagerStep(s, n);
            && Placed(r, n) && (forall j :: 0 <= j < n ==> ChildStops(r, j))
            && Work(source, r, n) <= Work(source, s, n)
            && (Can(s, n, ManagerThread) ==> Work(source, r, n) < Work(source, s, n))
            && forall t :: t != ManagerThread && Can(s, n, t) ==> Can(r, n, t)
  {
    var r := ManagerStep(s, n);
    ManagerGetsOn(source, s, n);
    ManagerHelpsSource(source, s, n);
    forall j | 0 <= j < n
      ensures ChildStops(r, j) && ChildWork(source, r, j) <= ChildWork(source, s, j)
              && (ConsumerCan(s.outputs[j], s.children[j]) ==> ConsumerCan(r.outputs[j], r.children[j]))
    {
      ManagerHelpsChild(source, s, n, j);
    }
    ChildrenNoMore(source, s, r, n);
  }

  lemma ManagerHelpsSource(source: seq<Data>, s: System, n: nat)
    requires Good(source, s, n)
    ensures var r := ManagerStep(s, n);
            && r.producer == s.producer && r.main == s.main && r.stored == s.stored
            && SourceWork(source, r) <= SourceWork(source, s)
            && (ProducerCan(s.input, s.producer) ==> ProducerCan(r.input, r.producer))
            && (s.manager.Ended() ==> r.manager.Ended())
  {
  }

  lemma SameStorages(s: System, r: System, n: nat)
    requires Shape(s, n) && Shape(r, n) && r.outputs == s.outputs && r.children == s.children
    requires forall j :: 0 <= j < n ==> ChildStops(s, j)
    ensures forall j :: 0 <= j < n ==> ChildStops(r, j)
  {
    forall j | 0 <= j < n ensures ChildStops(r, j) {
      assert ChildStops(s, j);
    }
  }

  /** The step adds no work, makes no other thread wait, and gets its own thread on if that can. */
  ghost predicate GetsOn(source: seq<Data>, s: System, r: System, n: nat, mover: Thread)
    requires Shape(s, n) && Shape(r, n)
  {
    && Work(source, r, n) <= Work(source, s, n)
    && (Can(s, n, mover) ==> Work(source, r, n) < Work(source, s, n))
    && forall t :: t != mover && Can(s, n, t) ==> Can(r, n, t)
  }

  lemma SourceGood(source: seq<Data>, s: System, n: nat, fault: bool)
    requires Good(source, s, n)
    ensures var r := Next(source, n, s, ProducerMoves(fault));
            InputStops(r) && Placed(r, n) && (forall j :: 0 <= j < n ==> ChildStops(r, j))
            && GetsOn(source, s, r, n, SourceThread)
  {
    var r := Next(source, n, s, ProducerMoves(fault));
    SourceStep(source, s, n, fault);
    SameStorages(s, r, n);
    forall t | t != SourceThread && Can(s, n, t) ensures Can(r, n, t) {
    }
  }

  lemma ChildGood(source: seq<Data>, s: System, n: nat, j: nat, partial: Option<nat>)
    requires Good(source, s, n)
    ensures var r := Next(source, n, s, ChildMoves(j, partial));
            InputStops(r) && Placed(r, n) && (forall i :: 0 <= i < n ==> ChildStops(r, i))
            && GetsOn(source, s, r, n, StorageThread(j))
  {
    if j < n {
      var r := Next(source, n, s, ChildMoves(j, partial));
      ChildStep(source, s, n, j, partial);
      forall t | t != StorageThread(j) && Can(s, n, t) ensures Can(r, n, t) {
      }
    }
  }

  lemma MainGood(source: seq<Data>, s: System, n: nat, failed: bool)
    requires Good(source, s, n)
    ensures var r := Next(source, n, s, MainMoves(failed));
            InputStops(r) && Placed(r, n) && (forall j :: 0 <= j < n ==> ChildStops(r, j))
            && GetsOn(source, s, r, n, MainThread)
  {
    var r := Next(source, n, s, MainMoves(failed));
    MainStepWorks(source, s, n, failed);
    SameStorages(s, r, n);
    assert r.(main := s.main, stored := s.stored) == s;
    forall t | t != MainThread && Can(s, n, t) ensures Can(r, n, t) {
    }
  }

  lemma ManagerGood(source: seq<Data>, s: System, n: nat)
    requires Good(source, s, n)
    ensures var r := ManagerStep(s, n);
            InputStops(r) && Placed(r, n) && (forall j :: 0 <= j < n ==> ChildStops(r, j))
            && GetsOn(source, s, r, n, ManagerThread)
  {
    ManagerStepWorks(source, s, n);
    ManagerKeepsInputStops(s, n);
  }

  lemma ManagerKeepsInputStops(s: System, n: nat)
    requires Shape(s, n) && InputStops(s)
    ensures InputStops(ManagerStep(s, n))
  {
  }

  /** Whatever raises. */
  lemma GoodStep(source: seq<Data>, s: System, n: nat, a: Action)
    requires Good(source, s, n)
    ensures var r := Next(source, n, s, a); Good(source, r, n) && GetsOn(source, s, r, n, Mover(a))
  {
    NextKeepsInv(source, s, n, a);
    match a
    case ProducerMoves(fault) => SourceGood(source, s, n, fault);
    case ManagerMoves => ManagerGood(source, s, n);
    case ChildMoves(j, partial) => ChildGood(source, s, n, j, partial);
    case MainMoves(failed) => MainGood(source, s, n, failed);
  }

  /** As long as the main thread has neither published everything nor aborted, some thread can get on. */
  lemma SomeoneCan(source: seq<Data>, s: System, n: nat) returns (t: Thread)
    requires Good(source, s, n) && !Over(s.main)
    ensures Can(s, n, t) && (t.StorageThread? ==> t.child < n)
  {
    var m := s.manager;
    if ManagerCan(s, n) {
      t := ManagerThread;
    } else if m.Ended() {
      t := if s.producer.Ended() then MainThread else SourceThread;
    } else if m.state.Sending? || m.state.SendTimedOut? {
      t := StorageThread(m.state.next);
      assert OutputOk(s, m.state.next) && ChildStops(s, m.state.next);
    } else if m.state.AwaitChildren? {
      var j :| 0 <= j < n && !s.children[j].Ended();
      assert OutputOk(s, j);
      t := StorageThread(j);
    } else {
      t := SourceThread;
    }
  }

  // ---------- rounds in which every thread moves ----------

  predicate Moves(actions: seq<Action>, t: Thread) {
    exists k :: 0 <= k < |actions| && Mover(actions[k]) == t
  }

  /** Every thread moves at least once, the threads of all `n` storages included. */
  ghost predicate Fair(actions: seq<Action>, n: nat) {
    forall t: Thread :: (t.StorageThread? ==> t.child < n) ==> Moves(actions, t)
  }

  ghost predicate AllFair(rounds: seq<seq<Action>>, n: nat) {
    forall k :: 0 <= k < |rounds| ==> Fair(rounds[k], n)
  }

  function Joined(rounds: seq<seq<Action>>): seq<Action> {
    if rounds == [] then [] else rounds[0] + Joined(rounds[1..])
  }

  lemma {:induction false} GoodSteps(source: seq<Data>, s: System, n: nat, actions: seq<Action>)
    requires Good(source, s, n)
    ensures var r := Steps(source, n, s, actions); Good(source, r, n) && Work(source, r, n) <= Work(source, s, n)
    decreases |actions|
  {
    if actions != [] {
      GoodStep(source, s, n, actions[0]);
      GoodSteps(source, Next(source, n, s, actions[0]), n, actions[1..]);
    }
  }

  lemma {:induction false} MovingGetsOn(source: seq<Data>, s: System, n: nat, actions: seq<Action>, t: Thread)
    requires Good(source, s, n) && Moves(actions, t) && Can(s, n, t)
    ensures var r := Steps(source, n, s, actions); Good(source, r, n) && Work(source, r, n) < Work(source, s, n)
    decreases |actions|
  {
    var r := Next(source, n, s, actions[0]);
    GoodStep(source, s, n, actions[0]);
    if Mover(actions[0]) == t {
      GoodSteps(source, r, n, actions[1..]);
    } else {
      var k :| 0 <= k < |actions| && Mover(actions[k]) == t;
      assert actions[1..][k - 1] == actions[k];
      MovingGetsOn(source, r, n, actions[1..], t);
    }
  }

  lemma {:induction false} StepsThenSteps(source: seq<Data>, n: nat, s: System, a: seq<Action>, b: seq<Action>)
    requires Shape(s, n)
    ensures Steps(source, n, s, a + b) == Steps(source, n, Steps(source, n, s, a), b)
    decreases |a|
  {
    if a == [] {
      assert a + b == b;
    } else {
      assert (a + b)[1..] == a[1..] + b;
      StepsThenSteps(source, n, Next(source, n, s, a[0]), a[1..], b);
    }
  }

  lemma {:induction false} OverStays(source: seq<Data>, n: nat, s: System, actions: seq<Action>)
    requires Shape(s, n) && Over(s.main)
    ensures Steps(source, n, s, actions).main == s.main
    decreases |actions|
  {
    if actions != [] {
      OverStays(source, n, Next(source, n, s, actions[0]), actions[1..]);
    }
  }

  /** From any reachable state, as many fair rounds as there is work left end the broadcast, whatever raises. */
  lemma {:induction false} FairRoundsEnd(source: seq<Data>, s: System, n: nat, rounds: seq<seq<Action>>)
    requires Good(source, s, n) && AllFair(rounds, n) && |rounds| >= Work(source, s, n)
    ensures var r := Steps(source, n, s, Joined(rounds)); Good(source, r, n) && Over(r.main)
    decreases |rounds|
  {
    if Over(s.main) {
      OverStays(source, n, s, Joined(rounds));
      GoodSteps(source, s, n, Joined(rounds));
    } else {
      var t := SomeoneCan(source, s, n);
      assert Work(source, s, n) > 0;
      assert Fair(rounds[0], n) && Moves(rounds[0], t);
      MovingGetsOn(source, s, n, rounds[0], t);
      StepsThenSteps(source, n, s, rounds[0], Joined(rounds[1..]));
      FairRoundsEnd(source, Steps(source, n, s, rounds[0]), n, rounds[1..]);
    }
  }

  // ---------- from the beginning ----------

  lemma {:induction false} RoundsIs(n: nat, left: nat)
    ensures Rounds(n, left) == (4 * n + 16) * left
  {
    if left > 0 {
      RoundsIs(n, left - 1);
    }
  }

  lemma {:induction false} FreshChildren(source: seq<Data>, bound: int, n: nat, k: nat)
    requires k <= n
    ensures ChildrenWork(source, Init(bound, n), k) == k * (8 * |source| + 15)
  {
    if k > 0 {
      FreshChildren(source, bound, n, k - 1);
    }
  }

  lemma FreshWork(source: seq<Data>, bound: int, n: nat)
    ensures Work(source, Init(bound, n), n)
         == 3 * |source| + 3 + (4 * n + 16) * |source| + 2 * n + 13 + n * (8 * |source| + 15) + 3 * n + 2
  {
    RoundsIs(n, |source|);
    FreshChildren(source, bound, n, n);
  }

  lemma Products(m: nat, n: nat)
    ensures 3 * m + 3 + (4 * n + 16) * m + 2 * n + 13 + n * (8 * m + 15) + 3 * n + 2
         == m * (12 * n + 19) + 20 * n + 18
  {
    assert (4 * n + 16) * m == 4 * (n * m) + 16 * m;
    assert n * (8 * m + 15) == 8 * (n * m) + 15 * n;
    assert m * (12 * n + 19) == 12 * (n * m) + 19 * m;
  }

  lemma FreshIsGood(source: seq<Data>, bound: int, n: nat)
    ensures Good(source, Init(bound, n), n)
  {
    RunKeepsInv(source, bound, n, []);
  }

  /**
   * Every broadcast comes to its end, whatever the source, the bound of the input queue, the number of storages
   * and the faults: any interleaving of so many rounds, in each of which every thread moves, ends with the
   * backup published, on all storages, or aborted.
   */
  lemma EveryBroadcastEnds(source: seq<Data>, bound: int, n: nat, rounds: seq<seq<Action>>)
    requires AllFair(rounds, n) && |rounds| >= |source| * (12 * n + 19) + 20 * n + 18
    ensures var s := Run(source, bound, n, Joined(rounds));
            s.main.Aborted? || (s.main.Published? && WholeBefore(s.stored, n))
  {
    StartIsWithin(source, bound, n, |rounds|);
    EndsWithin(source, bound, n, rounds);
  }

  lemma StartIsWithin(source: seq<Data>, bound: int, n: nat, k: nat)
    requires k >= |source| * (12 * n + 19) + 20 * n + 18
    ensures Work(source, Init(bound, n), n) <= k
  {
    FreshWork(source, bound, n);
    Products(|source|, n);
  }

  lemma EndsWithin(source: seq<Data>, bound: int, n: nat, rounds: seq<seq<Action>>)
    requires AllFair(rounds, n) && |rounds| >= Work(source, Init(bound, n), n)
    ensures var s := Run(source, bound, n, Joined(rounds));
            s.main.Aborted? || (s.main.Published? && WholeBefore(s.stored, n))
  {
    FreshIsGood(source, bound, n);
    RunThenSteps(source, bound, n, [], Joined(rounds));
    assert [] + Joined(rounds) == Joined(rounds);
    FairRoundsEnd(source, Init(bound, n), n, rounds);
  }

  lemma FaultlessRun(source: seq<Data>, bound: int, n: nat, actions: seq<Action>)
    requires forall k :: 0 <= k < |actions| ==> Faultless(actions[k])
    ensures Healthy(Run(source, bound, n, actions), n)
  {
    RunThenSteps(source, bound, n, [], actions);
    assert [] + actions == actions;
    RunKeepsInv(source, bound, n, []);
    FaultlessSteps(source, Init(bound, n), n, actions);
  }

  // ---------- without a fault ----------

  predicate Faultless(a: Action) {
    match a
    case ProducerMoves(fault) => !fault
    case ManagerMoves => true
    case ChildMoves(_, partial) => partial.None?
    case MainMoves(failed) => !failed
  }

  predicate ChildWell(s: System, j: nat)
    requires j < |s.outputs| == |s.children|
  {
    ConsumerWell(s.children[j]) && !s.outputs[j].stopped
  }

  /** Nothing has raised so far. */
  ghost predicate Healthy(s: System, n: nat)
    requires Shape(s, n)
  {
    && ProducerWell(s.producer) && !s.input.stopped && !Dying(s.manager) && !s.main.Aborted?
    && forall j :: 0 <= j < n ==> ChildWell(s, j)
  }

  lemma FaultlessStep(source: seq<Data>, s: System, n: nat, a: Action)
    requires Inv(source, s, n) && Healthy(s, n) && Faultless(a)
    ensures Healthy(Next(source, n, s, a), n)
  {
    var r := Next(source, n, s, a);
    forall j | 0 <= j < n ensures ChildWell(r, j) {
      assert ChildWell(s, j);
    }
    if a.ManagerMoves? {
      ManagerStaysWell(s, n);
    }
  }

  lemma ManagerStaysWell(s: System, n: nat)
    requires Shape(s, n) && Healthy(s, n)
    ensures var r := ManagerStep(s, n); !Dying(r.manager) && !r.input.stopped
  {
    if s.manager.state.SendTimedOut? && s.manager.state.next < n {
      assert ChildWell(s, s.manager.state.next);
    }
  }

  lemma {:induction false} FaultlessSteps(source: seq<Data>, s: System, n: nat, actions: seq<Action>)
    requires Inv(source, s, n) && Healthy(s, n) && forall k :: 0 <= k < |actions| ==> Faultless(actions[k])
    ensures Healthy(Steps(source, n, s, actions), n)
    decreases |actions|
  {
    if actions != [] {
      FaultlessStep(source, s, n, actions[0]);
      NextKeepsInv(source, s, n, actions[0]);
      FaultlessSteps(source, Next(source, n, s, actions[0]), n, actions[1..]);
    }
  }

  /**
   * When no operation raises, such an interleaving ends with the whole backup published on every storage, for
   * any number of them.
   */
  lemma FaultlessBroadcastPublishes(source: seq<Data>, bound: int, n: nat, rounds: seq<seq<Action>>)
    requires AllFair(rounds, n) && |rounds| >= |source| * (12 * n + 19) + 20 * n + 18
    requires forall k :: 0 <= k < |Joined(rounds)| ==> Faultless(Joined(rounds)[k])
    ensures var s := Run(source, bound, n, Joined(rounds));
            && s.main.Published?
            && forall j :: 0 <= j < n ==>
                 s.stored[j] == Stored(true, true, true) && s.children[j].written == Flatten(source)
  {
    StartIsWithin(source, bound, n, |rounds|);
    EndsWithin(source, bound, n, rounds);
    FaultlessRun(source, bound, n, Joined(rounds));
    var s := Run(source, bound, n, Joined(rounds));
    forall j | 0 <= j < n
      ensures s.stored[j] == Stored(true, true, true) && s.children[j].written == Flatten(source)
    {
      VisibleIsCompleteOrFailed(source, bound, n, Joined(rounds), j);
      assert ChildWell(s, j);
    }
  }

  // ---------- after a failure of the broadcasting thread ----------

  lemma {:induction false} NeverPublishesDying(source: seq<Data>, s: System, n: nat, actions: seq<Action>)
    requires Inv(source, s, n) && Dying(s.manager)
    ensures var r := Steps(source, n, s, actions); Dying(r.manager) && !r.main.Published?
    decreases |actions|
  {
    if actions != [] {
      NextKeepsInv(source, s, n, actions[0]);
      DyingStays(source, s, n, actions[0]);
      NeverPublishesDying(source, Next(source, n, s, actions[0]), n, actions[1..]);
    }
  }

  lemma DyingStays(source: seq<Data>, s: System, n: nat, a: Action)
    requires Shape(s, n) && Dying(s.manager)
    ensures Dying(Next(source, n, s, a).manager)
  {
  }

  /**
   * Once the broadcasting thread raised, as many fair rounds as there is work left end with the main thread
   * aborted and nothing visible, whatever else raises.
   */
  lemma RaisingBroadcastAborts(source: seq<Data>, bound: int, n: nat, actions: seq<Action>, rounds: seq<seq<Action>>)
    requires var s := Run(source, bound, n, actions);
             Dying(s.manager) && AllFair(rounds, n) && |rounds| >= Work(source, s, n)
    ensures var s := Run(source, bound, n, actions + Joined(rounds));
            s.main.Aborted? && forall j :: 0 <= j < n ==> !s.stored[j].visible
  {
    ReachedIsGood(source, bound, n, actions);
    var s := Run(source, bound, n, actions);
    FairRoundsEnd(source, s, n, rounds);
    NeverPublishesDying(source, s, n, Joined(rounds));
    RunThenSteps(source, bound, n, actions, Joined(rounds));
    RunKeepsInv(source, bound, n, actions + Joined(rounds));
  }

  lemma {:induction false} ReachedIsGood(source: seq<Data>, bound: int, n: nat, actions: seq<Action>)
    ensures Good(source, Run(source, bound, n, actions), n)
  {
    if actions == [] {
      FreshIsGood(source, bound, n);
    } else {
      var k := |actions| - 1;
      ReachedIsGood(source, bound, n, actions[..k]);
      GoodStep(source, Run(source, bound, n, actions[..k]), n, actions[k]);
    }
  }
}
