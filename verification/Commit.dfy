/** One backup from its source to its publication, over every interleaving (freezer/engine/engine.py:143-192). */
module Commit {
  import opened Bytes
  import opened Streaming

  /** The main thread: wait for both threads, then publish the metadata last. */
  datatype MainState = Joining | PutEngineMeta | MakeZeroDir | MakeLevelDir | PutFreezerMeta | Published | Aborted

  /**
   * The directory of the backup's level zero and the one of its level are made one after the other: `zeroDir`
   * is what `get_level_zero` lists, `visible` what `get_increments` lists as well.
   */
  datatype System = System(queue: Queue, producer: Producer, consumer: Consumer, main: MainState,
                           engineMeta: bool, zeroDir: bool, visible: bool, freezerMeta: bool)

  /** Which thread moves next, and whether its operation raises. */
  datatype Action = ProducerMoves(fault: bool) | ConsumerMoves(partial: Option<nat>) | MainMoves(failed: bool)

  function Init(bound: int): System {
    System(Queue([], bound, false, false), Producer(Running, [], false), Consumer(Opening, [], [], false),
           Joining, false, false, false, false)
  }

  function MainStep(s: System, failed: bool): System {
    match s.main
    case Joining =>
      if !s.producer.Ended() || !s.consumer.Ended() then s
      else if s.producer.reported || s.consumer.reported then s.(main := Aborted)
      else s.(main := PutEngineMeta)
    case PutEngineMeta => if failed then s.(main := Aborted) else s.(main := MakeZeroDir, engineMeta := true)
    case MakeZeroDir => if failed then s.(main := Aborted) else s.(main := MakeLevelDir, zeroDir := true)
    case MakeLevelDir => if failed then s.(main := Aborted) else s.(main := PutFreezerMeta, visible := true)
    case PutFreezerMeta => if failed then s.(main := Aborted) else s.(main := Published, freezerMeta := true)
    case _ => s
  }

  function Next(source: seq<Data>, s: System, a: Action): System {
    match a
    case ProducerMoves(fault) =>
      var (q, p) := ProducerStep(source, s.queue, s.producer, fault);
      s.(queue := q, producer := p)
    case ConsumerMoves(partial) =>
      var (q, c) := ConsumerStep(s.queue, s.consumer, partial);
      s.(queue := q, consumer := c)
    case MainMoves(failed) => MainStep(s, failed)
  }

  function Run(source: seq<Data>, bound: int, actions: seq<Action>): System {
    if actions == [] then Init(bound)
    else Next(source, Run(source, bound, actions[..|actions| - 1]), actions[|actions| - 1])
  }

  ghost predicate Inv(source: seq<Data>, bound: int, s: System) {
    && s.queue.bound == bound
    && ProducerOk(source, s.queue, s.producer)
    && ConsumerOk(s.queue, s.consumer, s.producer.sent)
    && (s.queue.stopped <==> s.producer.state.Failed? || s.consumer.state.Failed?)
    && ((s.main != Joining && s.main != Aborted) || s.engineMeta ==>
          s.producer.state.Finished? && s.consumer.state.Done?)
    && (s.zeroDir ==> s.engineMeta)
    && (s.visible ==> s.zeroDir)
    && (s.zeroDir && !s.visible ==> s.main == MakeLevelDir || s.main == Aborted)
    && (s.visible ==> s.main == PutFreezerMeta || s.main == Published || s.main == Aborted)
    && (s.main == MakeZeroDir ==> s.engineMeta)
    && (s.main == MakeLevelDir || s.main == PutFreezerMeta || s.main == Published ==> s.zeroDir)
    && (s.freezerMeta <==> s.main == Published)
    && (s.main == PutFreezerMeta || s.main == Published ==> s.visible)
  }

  lemma NextKeepsInv(source: seq<Data>, bound: int, s: System, a: Action)
    requires Inv(source, bound, s)
    ensures Inv(source, bound, Next(source, s, a))
  {
    match a
    case ProducerMoves(fault) => ProducerStepKeeps(source, s.queue, s.producer, s.consumer, fault);
    case ConsumerMoves(partial) => ConsumerStepKeeps(s.queue, s.consumer, s.producer.sent, partial);
    case MainMoves(_) =>
  }

  lemma {:induction false} RunKeepsInv(source: seq<Data>, bound: int, actions: seq<Action>)
    ensures Inv(source, bound, Run(source, bound, actions))
  {
    if actions == [] {
    } else {
      RunKeepsInv(source, bound, actions[..|actions| - 1]);
      NextKeepsInv(source, bound, Run(source, bound, actions[..|actions| - 1]), actions[|actions| - 1]);
    }
  }

  /**
   * In every interleaving what was received followed by what is queued is what was sent, within the bound,
   * and the file holds a prefix of the stream, also after a failure.
   */
  lemma NothingLost(source: seq<Data>, bound: int, actions: seq<Action>)
    ensures var s := Run(source, bound, actions);
            && s.consumer.received + s.queue.items == s.producer.sent <= source
            && (bound > 0 ==> |s.queue.items| <= bound)
            && (s.consumer.state.Done? ==> s.consumer.received == source)
            && s.consumer.written <= Flatten(source)
  {
    RunKeepsInv(source, bound, actions);
    var s := Run(source, bound, actions);
    FileIsPrefix(s.queue, s.consumer, s.producer.sent);
    FlattenPrefix(s.producer.sent, source);
    if s.consumer.state.Done? {
      assert s.consumer.received + [] == s.consumer.received;
    }
  }

  /**
   * Whatever the interleaving and wherever operations raise: a backup that can be listed has its engine
   * metadata stored and its data file holds exactly the source stream.
   */
  lemma CommitSafety(source: seq<Data>, bound: int, actions: seq<Action>)
    ensures var s := Run(source, bound, actions);
            && (s.visible ==> s.zeroDir)
            && (s.zeroDir ==> s.engineMeta && s.consumer.written == Flatten(source))
  {
    RunKeepsInv(source, bound, actions);
    NothingLost(source, bound, actions);
  }

  /** A failure on either side of the queue is never published. */
  lemma FailureIsNeverPublished(source: seq<Data>, bound: int, actions: seq<Action>)
    ensures var s := Run(source, bound, actions);
            s.producer.state.Failed? || s.consumer.state.Failed? ==>
              s.queue.stopped && !s.zeroDir && !s.visible && (s.main == Joining || s.main == Aborted)
  {
    RunKeepsInv(source, bound, actions);
  }

  /** A level zero stays without any backup exactly when making the directory of its level failed. */
  lemma HalfMadeIff(source: seq<Data>, bound: int, actions: seq<Action>, a: Action)
    ensures var s := Run(source, bound, actions);
            var r := Next(source, s, a);
            r.main.Aborted? && r.zeroDir && !r.visible <==>
              (s.main.Aborted? && s.zeroDir && !s.visible) || (s.main.MakeLevelDir? && a == MainMoves(true))
  {
    RunKeepsInv(source, bound, actions);
    HalfMadeStep(source, bound, Run(source, bound, actions), a);
  }

  lemma HalfMadeStep(source: seq<Data>, bound: int, s: System, a: Action)
    requires Inv(source, bound, s)
    ensures var r := Next(source, s, a);
            r.main.Aborted? && r.zeroDir && !r.visible <==>
              (s.main.Aborted? && s.zeroDir && !s.visible) || (s.main.MakeLevelDir? && a == MainMoves(true))
  {
  }

  // ---------- after a failure ----------

  /** Any further interleaving from any state. */
  function Steps(source: seq<Data>, s: System, actions: seq<Action>): System
    decreases |actions|
  {
    if actions == [] then s else Steps(source, Next(source, s, actions[0]), actions[1..])
  }

  lemma {:induction false} RunThenSteps(source: seq<Data>, bound: int, actions: seq<Action>, more: seq<Action>)
    ensures Run(source, bound, actions + more) == Steps(source, Run(source, bound, actions), more)
    decreases |more|
  {
    if more == [] {
      assert actions + more == actions;
    } else {
      assert (actions + [more[0]])[..|actions|] == actions;
      assert (actions + [more[0]]) + more[1..] == actions + more;
      RunThenSteps(source, bound, actions + [more[0]], more[1..]);
    }
  }

  function ConsumerTurns(actions: seq<Action>): nat {
    if actions == [] then 0 else (if actions[0].ConsumerMoves? then 1 else 0) + ConsumerTurns(actions[1..])
  }

  function ProducerTurns(actions: seq<Action>): nat {
    if actions == [] then 0 else (if actions[0].ProducerMoves? then 1 else 0) + ProducerTurns(actions[1..])
  }

  /** A move of a thread brings it closer to its end, and moves of the others leave it where it is. */
  lemma StoppedConsumerTurn(source: seq<Data>, s: System, a: Action)
    requires s.queue.stopped
    ensures var r := Next(source, s, a);
            && r.queue.stopped
            && ConsumerLeft(r.consumer) <= Max(0, ConsumerLeft(s.consumer) - ConsumerTurns([a]))
  {
    if a.ConsumerMoves? {
      StoppedConsumerWindsDown(s.queue, s.consumer, a.partial);
    }
  }

  lemma StoppedProducerTurn(source: seq<Data>, s: System, a: Action)
    requires s.queue.stopped && |s.producer.sent| <= |source|
    ensures var r := Next(source, s, a);
            && r.queue.stopped && |r.producer.sent| <= |source|
            && ProducerLeft(source, r.producer) <= Max(0, ProducerLeft(source, s.producer) - ProducerTurns([a]))
  {
    if a.ProducerMoves? {
      StoppedProducerWindsDown(source, s.queue, s.producer, a.fault);
    }
  }

  lemma FirstTurn(actions: seq<Action>)
    requires actions != []
    ensures ConsumerTurns(actions) == ConsumerTurns([actions[0]]) + ConsumerTurns(actions[1..])
    ensures ProducerTurns(actions) == ProducerTurns([actions[0]]) + ProducerTurns(actions[1..])
  {
  }

  /** The consumer of a stopped queue ends once it gets its turns, whatever moves in between. */
  lemma {:induction false} StoppedConsumerEnds(source: seq<Data>, s: System, actions: seq<Action>)
    requires s.queue.stopped && ConsumerTurns(actions) >= ConsumerLeft(s.consumer)
    ensures Steps(source, s, actions).consumer.Ended()
    decreases |actions|
  {
    if actions == [] {
    } else {
      StoppedConsumerTurn(source, s, actions[0]);
      FirstTurn(actions);
      StoppedConsumerEnds(source, Next(source, s, actions[0]), actions[1..]);
    }
  }

  /** And so does the producer. */
  lemma {:induction false} StoppedProducerEnds(source: seq<Data>, s: System, actions: seq<Action>)
    requires s.queue.stopped && |s.producer.sent| <= |source|
    requires ProducerTurns(actions) >= ProducerLeft(source, s.producer)
    ensures Steps(source, s, actions).producer.Ended()
    decreases |actions|
  {
    if actions == [] {
    } else {
      StoppedProducerTurn(source, s, actions[0]);
      FirstTurn(actions);
      StoppedProducerEnds(source, Next(source, s, actions[0]), actions[1..]);
    }
  }

  /**
   * After the failure of either thread, any further interleaving in which the consumer moves 8 times and
   * the producer 4 times more than there are messages ends both, and the main thread then aborts.
   */
  lemma StoppedBackupAborts(source: seq<Data>, bound: int, actions: seq<Action>, more: seq<Action>, failed: bool)
    requires Run(source, bound, actions).queue.stopped
    requires ConsumerTurns(more) >= 8 && ProducerTurns(more) >= 4 + |source|
    ensures var s := Run(source, bound, actions + more);
            && s.consumer.Ended() && s.producer.Ended()
            && MainStep(s, failed).main.Aborted? && !s.zeroDir && !s.visible
  {
    RunKeepsInv(source, bound, actions);
    RunThenSteps(source, bound, actions, more);
    StoppedConsumerEnds(source, Run(source, bound, actions), more);
    StoppedProducerEnds(source, Run(source, bound, actions), more);
    StaysStopped(source, Run(source, bound, actions), more);
    RunKeepsInv(source, bound, actions + more);
  }

  lemma {:induction false} StaysStopped(source: seq<Data>, s: System, actions: seq<Action>)
    requires s.queue.stopped
    ensures Steps(source, s, actions).queue.stopped
    decreases |actions|
  {
    if actions == [] {
    } else {
      StoppedConsumerTurn(source, s, actions[0]);
      StaysStopped(source, Next(source, s, actions[0]), actions[1..]);
    }
  }

  // ---------- every backup comes to its end ----------

  datatype Thread = SourceThread | StorageThread | MainThread

  function Mover(a: Action): Thread {
    match a
    case ProducerMoves(_) => SourceThread
    case ConsumerMoves(_) => StorageThread
    case MainMoves(_) => MainThread
  }

  predicate Over(m: MainState) {
    m.Published? || m.Aborted?
  }

  function MainWork(m: MainState): nat {
    match m
    case Joining => 5
    case PutEngineMeta => 4
    case MakeZeroDir => 3
    case MakeLevelDir => 2
    case PutFreezerMeta => 1
    case _ => 0
  }

  /** What the threads have left to do together. */
  function Work(source: seq<Data>, s: System): nat
    requires |s.producer.sent| <= |source| && |s.consumer.received| <= |source|
  {
    ProducerWork(source, s.queue, s.producer) + ConsumerWork(|source|, s.queue, s.consumer) + MainWork(s.main)
  }

  /** The thread does not wait for another one and has not ended. */
  predicate Can(s: System, t: Thread) {
    match t
    case SourceThread => ProducerCan(s.queue, s.producer)
    case StorageThread => ConsumerCan(s.queue, s.consumer)
    case MainThread => s.producer.Ended() && s.consumer.Ended() && !Over(s.main)
  }

  ghost predicate Good(source: seq<Data>, bound: int, s: System) {
    Inv(source, bound, s) && |s.producer.sent| <= |source| && |s.consumer.received| <= |source|
  }

  lemma InvIsGood(source: seq<Data>, bound: int, s: System)
    requires Inv(source, bound, s)
    ensures Good(source, bound, s)
  {
    assert |s.consumer.received + s.queue.items| == |s.producer.sent|;
  }

  /** Whatever raises: a step adds no work, makes no other thread wait, and gets its own thread on if that can. */
  lemma GoodStep(source: seq<Data>, bound: int, s: System, a: Action)
    requires Good(source, bound, s)
    ensures var r := Next(source, s, a);
            && Good(source, bound, r) && Work(source, r) <= Work(source, s)
            && (Can(s, Mover(a)) ==> Work(source, r) < Work(source, s))
            && forall t :: t != Mover(a) && Can(s, t) ==> Can(r, t)
  {
    NextKeepsInv(source, bound, s, a);
    match a {
      case ProducerMoves(fault) =>
        ProducerGetsOn(source, s.queue, s.producer, fault);
        ProducerHelps(source, |source|, s.queue, s.producer, s.consumer, fault);
      case ConsumerMoves(partial) =>
        ConsumerGetsOn(|source|, s.queue, s.consumer, s.producer.sent, partial);
        ConsumerHelps(source, s.queue, s.producer, s.consumer, partial);
      case MainMoves(_) =>
    }
    InvIsGood(source, bound, Next(source, s, a));
  }

  /** As long as the backup is neither published nor aborted, some thread can get on. */
  lemma SomeoneCan(source: seq<Data>, bound: int, s: System) returns (t: Thread)
    requires Good(source, bound, s) && !Over(s.main)
    ensures Can(s, t)
  {
    t := if ConsumerCan(s.queue, s.consumer) then StorageThread
         else if s.producer.Ended() then MainThread
         else SourceThread;
  }

  /** Every thread moves at least once. */
  ghost predicate Fair(actions: seq<Action>) {
    forall t :: Moves(actions, t)
  }

  predicate Moves(actions: seq<Action>, t: Thread) {
    exists k :: 0 <= k < |actions| && Mover(actions[k]) == t
  }

  lemma {:induction false} GoodSteps(source: seq<Data>, bound: int, s: System, actions: seq<Action>)
    requires Good(source, bound, s)
    ensures var r := Steps(source, s, actions); Good(source, bound, r) && Work(source, r) <= Work(source, s)
    decreases |actions|
  {
    if actions != [] {
      GoodStep(source, bound, s, actions[0]);
      GoodSteps(source, bound, Next(source, s, actions[0]), actions[1..]);
    }
  }

  lemma {:induction false} MovingGetsOn(source: seq<Data>, bound: int, s: System, actions: seq<Action>, t: Thread)
    requires Good(source, bound, s) && Moves(actions, t) && Can(s, t)
    ensures var r := Steps(source, s, actions); Good(source, bound, r) && Work(source, r) < Work(source, s)
    decreases |actions|
  {
    var r := Next(source, s, actions[0]);
    GoodStep(source, bound, s, actions[0]);
    if Mover(actions[0]) == t {
      GoodSteps(source, bound, r, actions[1..]);
    } else {
      var k :| 0 <= k < |actions| && Mover(actions[k]) == t;
      assert actions[1..][k - 1] == actions[k];
      MovingGetsOn(source, bound, r, actions[1..], t);
    }
  }

  ghost predicate AllFair(rounds: seq<seq<Action>>) {
    forall k :: 0 <= k < |rounds| ==> Fair(rounds[k])
  }

  function Joined(rounds: seq<seq<Action>>): seq<Action> {
    if rounds == [] then [] else rounds[0] + Joined(rounds[1..])
  }

  lemma {:induction false} StepsThenSteps(source: seq<Data>, s: System, a: seq<Action>, b: seq<Action>)
    ensures Steps(source, s, a + b) == Steps(source, Steps(source, s, a), b)
    decreases |a|
  {
    if a == [] {
      assert a + b == b;
    } else {
      assert (a + b)[1..] == a[1..] + b;
      StepsThenSteps(source, Next(source, s, a[0]), a[1..], b);
    }
  }

  /** A backup that is over stays as it is. */
  lemma {:induction false} OverStays(source: seq<Data>, s: System, actions: seq<Action>)
    requires Over(s.main)
    ensures Steps(source, s, actions).main == s.main
    decreases |actions|
  {
    if actions != [] {
      OverStays(source, Next(source, s, actions[0]), actions[1..]);
    }
  }

  /** From any reachable state, as many fair rounds as there is work left end the backup, whatever raises. */
  lemma {:induction false} FairRoundsEnd(source: seq<Data>, bound: int, s: System, rounds: seq<seq<Action>>)
    requires Good(source, bound, s) && AllFair(rounds) && |rounds| >= Work(source, s)
    ensures Over(Steps(source, s, Joined(rounds)).main)
    decreases |rounds|
  {
    if Over(s.main) {
      OverStays(source, s, Joined(rounds));
    } else {
      var t := SomeoneCan(source, bound, s);
      assert Work(source, s) > 0;
      assert Fair(rounds[0]) && Moves(rounds[0], t);
      MovingGetsOn(source, bound, s, rounds[0], t);
      StepsThenSteps(source, s, rounds[0], Joined(rounds[1..]));
      FairRoundsEnd(source, bound, Steps(source, s, rounds[0]), rounds[1..]);
    }
  }

  // ---------- and it is published exactly when nothing raised ----------

  /**
   * The operation of this move raises: reading the source, opening, writing or closing the file, storing
   * metadata, or making a directory.
   */
  predicate Strikes(s: System, a: Action) {
    match a
    case ProducerMoves(fault) => fault && s.producer.state.Running?
    case ConsumerMoves(partial) =>
      partial.Some? && (s.consumer.state.Opening? || s.consumer.state.Writing? || s.consumer.state.Closing?)
    case MainMoves(failed) => failed && !s.main.Joining? && !Over(s.main)
  }

  /** No operation of the run raised. */
  ghost predicate NothingStruck(source: seq<Data>, bound: int, actions: seq<Action>) {
    forall k: nat :: k < |actions| ==> !StruckAt(source, bound, actions, k)
  }

  predicate StruckAt(source: seq<Data>, bound: int, actions: seq<Action>, k: nat)
    requires k < |actions|
  {
    Strikes(Run(source, bound, actions[..k]), actions[k])
  }

  predicate Healthy(s: System) {
    ProducerWell(s.producer) && ConsumerWell(s.consumer) && !s.queue.stopped && !s.main.Aborted?
  }

  lemma StrikeIff(source: seq<Data>, bound: int, s: System, a: Action)
    requires Inv(source, bound, s)
    ensures Healthy(Next(source, s, a)) <==> Healthy(s) && !Strikes(s, a)
  {
  }

  lemma {:induction false} HealthyIff(source: seq<Data>, bound: int, actions: seq<Action>)
    ensures Healthy(Run(source, bound, actions)) <==> NothingStruck(source, bound, actions)
  {
    if actions != [] {
      var n := |actions| - 1;
      HealthyIff(source, bound, actions[..n]);
      RunKeepsInv(source, bound, actions[..n]);
      StrikeIff(source, bound, Run(source, bound, actions[..n]), actions[n]);
      StruckSnoc(source, bound, actions);
    }
  }

  lemma StruckSnoc(source: seq<Data>, bound: int, actions: seq<Action>)
    requires actions != []
    ensures var n := |actions| - 1;
            NothingStruck(source, bound, actions) <==>
            NothingStruck(source, bound, actions[..n]) && !StruckAt(source, bound, actions, n)
  {
    var n := |actions| - 1;
    forall k: nat | k < n ensures StruckAt(source, bound, actions[..n], k) <==> StruckAt(source, bound, actions, k) {
      assert actions[..n][..k] == actions[..k];
    }
  }

  /** What a published backup consists of. */
  predicate Whole(source: seq<Data>, s: System) {
    && s.main.Published? && s.engineMeta && s.zeroDir && s.visible && s.freezerMeta
    && s.consumer.written == Flatten(source)
  }

  /** What is over was published whole if nothing raised, and aborted otherwise. */
  lemma OverIff(source: seq<Data>, bound: int, actions: seq<Action>)
    requires Over(Run(source, bound, actions).main)
    ensures var s := Run(source, bound, actions);
            if NothingStruck(source, bound, actions) then Whole(source, s) else s.main.Aborted?
  {
    RunKeepsInv(source, bound, actions);
    HealthyIff(source, bound, actions);
    CommitSafety(source, bound, actions);
  }

  /**
   * Every backup comes to its end, whatever the source, the bound of the queue and the faults: any
   * interleaving of 11 rounds a message and 23 more, in each of which every thread moves, ends with the whole
   * backup published if no operation raised, and aborted otherwise.
   */
  lemma EveryBackupEnds(source: seq<Data>, bound: int, rounds: seq<seq<Action>>)
    requires AllFair(rounds) && |rounds| >= 11 * |source| + 23
    ensures var s := Run(source, bound, Joined(rounds));
            if NothingStruck(source, bound, Joined(rounds)) then Whole(source, s) else s.main.Aborted?
  {
    RunKeepsInv(source, bound, []);
    RunThenSteps(source, bound, [], Joined(rounds));
    assert [] + Joined(rounds) == Joined(rounds);
    FairRoundsEnd(source, bound, Init(bound), rounds);
    OverIff(source, bound, Joined(rounds));
  }

  function MainTurns(n: nat): seq<Action> {
    seq(n, _ => MainMoves(false))
  }

  lemma {:induction false} MainFinishes(source: seq<Data>, s: System)
    requires s.producer.state.Finished? && s.consumer.state.Done? && !s.main.Aborted?
    requires !s.producer.reported && !s.consumer.reported
    ensures Steps(source, s, MainTurns(MainWork(s.main))).main.Published?
    decreases MainWork(s.main)
  {
    if !s.main.Published? {
      var n := MainWork(s.main);
      assert MainTurns(n)[1..] == MainTurns(n - 1);
      MainFinishes(source, Next(source, s, MainMoves(false)));
    }
  }

  /** Once both threads have ended without an exception, five moves of the main thread publish the backup. */
  lemma EndedThreadsPublish(source: seq<Data>, bound: int, actions: seq<Action>)
    requires var s := Run(source, bound, actions);
             s.producer.state.Finished? && s.consumer.state.Done? && s.main.Joining?
    ensures Whole(source, Run(source, bound, actions + MainTurns(5)))
  {
    RunKeepsInv(source, bound, actions);
    RunThenSteps(source, bound, actions, MainTurns(5));
    MainFinishes(source, Run(source, bound, actions));
    CommitSafety(source, bound, actions + MainTurns(5));
    RunKeepsInv(source, bound, actions + MainTurns(5));
  }

  lemma {:induction false} UnhealthyNeverPublishes(source: seq<Data>, bound: int, s: System, actions: seq<Action>)
    requires Inv(source, bound, s) && !Healthy(s)
    ensures !Steps(source, s, actions).main.Published?
    decreases |actions|
  {
    if actions != [] {
      StrikeIff(source, bound, s, actions[0]);
      NextKeepsInv(source, bound, s, actions[0]);
      UnhealthyNeverPublishes(source, bound, Next(source, s, actions[0]), actions[1..]);
    }
  }

  /** Over every run: the backup can still be published exactly when no operation has raised so far. */
  lemma PublishesIff(source: seq<Data>, bound: int, actions: seq<Action>)
    ensures (exists more: seq<Action> {:trigger Run(source, bound, actions + more)} ::
               Run(source, bound, actions + more).main.Published?)
            <==> NothingStruck(source, bound, actions)
  {
    var s := Run(source, bound, actions);
    RunKeepsInv(source, bound, actions);
    HealthyIff(source, bound, actions);
    if Healthy(s) {
      var more := PublishingSteps(source, bound, s);
      RunThenSteps(source, bound, actions, more);
    } else {
      forall more: seq<Action> ensures !Run(source, bound, actions + more).main.Published? {
        RunThenSteps(source, bound, actions, more);
        UnhealthyNeverPublishes(source, bound, s, more);
      }
    }
  }

  predicate Faultless(a: Action) {
    match a
    case ProducerMoves(fault) => !fault
    case ConsumerMoves(partial) => partial.None?
    case MainMoves(failed) => !failed
  }

  lemma {:induction false} FaultlessStaysHealthy(source: seq<Data>, bound: int, s: System, actions: seq<Action>)
    requires Inv(source, bound, s) && Healthy(s) && forall k :: 0 <= k < |actions| ==> Faultless(actions[k])
    ensures Healthy(Steps(source, s, actions))
    decreases |actions|
  {
    if actions != [] {
      StrikeIff(source, bound, s, actions[0]);
      NextKeepsInv(source, bound, s, actions[0]);
      FaultlessStaysHealthy(source, bound, Next(source, s, actions[0]), actions[1..]);
    }
  }

  function Rounds(n: nat): seq<seq<Action>> {
    seq(n, _ => [ProducerMoves(false), ConsumerMoves(None), MainMoves(false)])
  }

  lemma {:induction false} RoundsAreFair(n: nat)
    ensures AllFair(Rounds(n)) && forall k :: 0 <= k < |Joined(Rounds(n))| ==> Faultless(Joined(Rounds(n))[k])
  {
    var round := [ProducerMoves(false), ConsumerMoves(None), MainMoves(false)];
    forall t ensures Moves(round, t) {
      assert Mover(round[0]) == SourceThread && Mover(round[1]) == StorageThread && Mover(round[2]) == MainThread;
      assert Mover(round[if t.SourceThread? then 0 else if t.StorageThread? then 1 else 2]) == t;
    }
    if n > 0 {
      RoundsAreFair(n - 1);
      assert Rounds(n)[1..] == Rounds(n - 1);
    }
  }

  lemma PublishingSteps(source: seq<Data>, bound: int, s: System) returns (more: seq<Action>)
    requires Inv(source, bound, s) && Healthy(s)
    ensures Steps(source, s, more).main.Published?
  {
    InvIsGood(source, bound, s);
    var rounds := Rounds(Work(source, s));
    RoundsAreFair(Work(source, s));
    more := Joined(rounds);
    FairRoundsEnd(source, bound, s, rounds);
    FaultlessStaysHealthy(source, bound, s, more);
  }
}
