/**
 * One source written to several storages at once (freezer/storage/multiple.py), over every interleaving
 * of the source thread, the broadcasting thread, the storage threads and the main thread.
 */
module Broadcast {
  import opened Bytes
  import opened Streaming

  /** `write_backup` of the multiple storage: it drains the input queue and fills every output queue. */
  datatype ManagerState =
    | LookStop
    | LookFinish
    | LookEmpty
    | Taking
    | Waited
    | Sending(message: Data, next: nat)
    | SendTimedOut(message: Data, next: nat)
    | Finishing(next: nat)
    | AwaitChildren
    | Returned
    | StopAll(next: nat)
    | Rethrow
    | Recorded
    | Dead

  /** `taken` and `sentTo` record what was received and put so far; `putRaised` that a put raised. */
  datatype Manager = Manager(state: ManagerState, taken: seq<Data>, sentTo: seq<seq<Data>>, putRaised: bool)
  {
    predicate Ended() {
      state.Returned? || state.Dead?
    }

    predicate Reported() {
      state.Recorded? || state.Dead?
    }
  }

  datatype MainState = AwaitThreads | Publishing(storage: nat, step: nat) | Published | Aborted

  datatype Stored = Stored(engineMeta: bool, visible: bool, freezerMeta: bool)

  datatype System = System(input: Queue, producer: Producer, manager: Manager,
                           outputs: seq<Queue>, children: seq<Consumer>, main: MainState, stored: seq<Stored>)

  datatype Action =
    | ProducerMoves(fault: bool)
    | ManagerMoves
    | ChildMoves(child: nat, partial: Option<nat>)
    | MainMoves(failed: bool)

  function Init(bound: int, n: nat): System {
    System(Queue([], bound, false, false), Producer(Running, [], false),
           Manager(LookStop, [], seq(n, _ => []), false),
           seq(n, _ => Queue([], 2, false, false)), seq(n, _ => Consumer(Opening, [], [], false)),
           AwaitThreads, seq(n, _ => Stored(false, false, false)))
  }

  predicate Shape(s: System, n: nat) {
    |s.outputs| == |s.children| == |s.stored| == |s.manager.sentTo| == n
  }

  /**
   * `transmit`, then the joins. The set of broken queues is never filled, because the helper that stops
   * everything always raises first; and the children's exception queues are never looked at, because
   * `empty` is tested without being called.
   */
  function ManagerStep(s: System, n: nat): System
    requires Shape(s, n)
  {
    var m := s.manager;
    match m.state
    case LookStop => s.(manager := m.(state := if s.input.stopped then Rethrow else LookFinish))
    case LookFinish => s.(manager := m.(state := if s.input.finished then LookEmpty else Taking))
    case LookEmpty => s.(manager := m.(state := if s.input.items == [] then Finishing(0) else Taking))
    case Taking =>
      var (input, r) := GetTurn(s.input);
      if r.None? then s.(manager := m.(state := Waited))
      else s.(input := input, manager := m.(state := Sending(r.value, 0), taken := m.taken + [r.value]))
    case Waited => s.(manager := m.(state := if s.input.stopped then Rethrow else LookStop))
    case Sending(message, k) =>
      if k >= n then s.(manager := m.(state := LookStop))
      else
        var (output, sent) := PutTurn(s.outputs[k], message);
        if !sent then s.(manager := m.(state := SendTimedOut(message, k)))
        else s.(outputs := s.outputs[k := output],
                manager := m.(state := Sending(message, k + 1), sentTo := m.sentTo[k := m.sentTo[k] + [message]]))
    case SendTimedOut(message, k) =>
      if k < n && s.outputs[k].stopped then s.(manager := m.(state := StopAll(0), putRaised := true))
      else s.(manager := m.(state := Sending(message, k)))
    case Finishing(k) =>
      if k >= n then s.(manager := m.(state := AwaitChildren))
      else s.(outputs := s.outputs[k := s.outputs[k].(finished := true)], manager := m.(state := Finishing(k + 1)))
    case AwaitChildren =>
      if forall j :: 0 <= j < n ==> s.children[j].Ended() then s.(manager := m.(state := Returned)) else s
    case StopAll(k) =>
      if k == 0 then s.(input := s.input.(stopped := true), manager := m.(state := StopAll(1)))
      else if k <= n then
        s.(outputs := s.outputs[k - 1 := s.outputs[k - 1].(stopped := true)], manager := m.(state := StopAll(k + 1)))
      else s.(manager := m.(state := Rethrow))
    case Rethrow => s.(manager := m.(state := Recorded))
    case Recorded => s.(input := s.input.(stopped := true), manager := m.(state := Dead))
    case _ => s
  }

  /** Publication, storage by storage: engine metadata, then the directory, then the backup's metadata. */
  function MainStep(s: System, n: nat, failed: bool): System
    requires Shape(s, n)
  {
    match s.main
    case AwaitThreads =>
      if !s.producer.Ended() || !s.manager.Ended() then s
      else if s.producer.reported || s.manager.Reported() then s.(main := Aborted)
      else s.(main := Publishing(0, 0))
    case Publishing(j, step) =>
      if j >= n then s.(main := Published)
      else if failed then s.(main := Aborted)
      else
        var x := s.stored[j];
        if step == 0 then s.(stored := s.stored[j := x.(engineMeta := true)], main := Publishing(j, 1))
        else if step == 1 then s.(stored := s.stored[j := x.(visible := true)], main := Publishing(j, 2))
        else s.(stored := s.stored[j := x.(freezerMeta := true)], main := Publishing(j + 1, 0))
    case _ => s
  }

  function Next(source: seq<Data>, n: nat, s: System, a: Action): (r: System)
    requires Shape(s, n)
    ensures Shape(r, n)
  {
    match a
    case ProducerMoves(fault) =>
      var (q, p) := ProducerStep(source, s.input, s.producer, fault);
      s.(input := q, producer := p)
    case ManagerMoves => ManagerStep(s, n)
    case ChildMoves(j, partial) =>
      if j >= n then s
      else
        var (q, c) := ConsumerStep(s.outputs[j], s.children[j], partial);
        s.(outputs := s.outputs[j := q], children := s.children[j := c])
    case MainMoves(failed) => MainStep(s, n, failed)
  }

  function Run(source: seq<Data>, bound: int, n: nat, actions: seq<Action>): (s: System)
    ensures Shape(s, n)
  {
    if actions == [] then Init(bound, n)
    else Next(source, n, Run(source, bound, n, actions[..|actions| - 1]), actions[|actions| - 1])
  }

  // ---------- the invariant ----------

  /** The manager has put everything it took to every output. */
  predicate Complete(state: ManagerState) {
    state.Finishing? || state.AwaitChildren? || state.Returned?
  }

  /** The first `k` outputs hold the message in hand already. */
  ghost predicate SentUpTo(taken: seq<Data>, sentTo: seq<seq<Data>>, k: nat) {
    && taken != []
    && (forall j :: 0 <= j < |sentTo| ==> sentTo[j] == if j < k then taken else taken[..|taken| - 1])
  }

  ghost predicate AllSent(taken: seq<Data>, sentTo: seq<seq<Data>>) {
    forall j :: 0 <= j < |sentTo| ==> sentTo[j] == taken
  }

  ghost predicate SomeSent(taken: seq<Data>, sentTo: seq<seq<Data>>) {
    AllSent(taken, sentTo) || exists k :: 0 <= k <= |sentTo| && SentUpTo(taken, sentTo, k)
  }

  ghost predicate ManagerOk(source: seq<Data>, s: System, n: nat) {
    var m := s.manager;
    && m.taken + s.input.items == s.producer.sent
    && s.input.WithinBound()
    && (m.state.LookEmpty? ==> s.input.finished)
    && (Complete(m.state) ==> s.input.finished && s.input.items == [])
    && (m.putRaised ==> m.state.StopAll? || m.state.Rethrow? || m.Reported())
    && match m.state
       case Sending(message, k) => k <= n && SentUpTo(m.taken, m.sentTo, k) && message == m.taken[|m.taken| - 1]
       case SendTimedOut(message, k) => k < n && SentUpTo(m.taken, m.sentTo, k) && message == m.taken[|m.taken| - 1]
       case StopAll(k) => k <= n + 1 && m.putRaised && (k > 0 ==> s.input.stopped) && SomeSent(m.taken, m.sentTo)
       case Rethrow => SomeSent(m.taken, m.sentTo)
       case Recorded => SomeSent(m.taken, m.sentTo)
       case Dead => s.input.stopped && SomeSent(m.taken, m.sentTo)
       case _ => AllSent(m.taken, m.sentTo)
  }

  ghost predicate OutputOk(s: System, j: nat)
    requires j < |s.outputs| == |s.children| == |s.manager.sentTo|
  {
    var m := s.manager;
    && s.outputs[j].bound == 2
    && ConsumerOk(s.outputs[j], s.children[j], m.sentTo[j])
    && (s.outputs[j].finished <==>
          (m.state.Finishing? && j < m.state.next) || m.state.AwaitChildren? || m.state.Returned?)
    && (m.state.StopAll? && j + 1 < m.state.next ==> s.outputs[j].stopped)
    && (m.putRaised && !m.state.StopAll? ==> s.outputs[j].stopped && s.input.stopped)
    && (m.state.Returned? ==> s.children[j].Ended())
  }

  ghost predicate MainOk(s: System, n: nat)
    requires Shape(s, n)
  {
    && (s.main.Publishing? || s.main.Published? ==> s.producer.state.Finished? && s.manager.state.Returned?)
    && (forall j :: 0 <= j < n && s.stored[j].engineMeta ==> s.producer.state.Finished? && s.manager.state.Returned?)
    && (forall j :: 0 <= j < n && s.stored[j].visible ==> s.stored[j].engineMeta)
    && (s.main.Publishing? && s.main.step > 0 && s.main.storage < n ==> s.stored[s.main.storage].engineMeta)
  }

  ghost predicate Inv(source: seq<Data>, s: System, n: nat) {
    && Shape(s, n)
    && ProducerOk(source, s.input, s.producer)
    && ManagerOk(source, s, n)
    && (forall j :: 0 <= j < n ==> OutputOk(s, j))
    && MainOk(s, n)
  }

  // ---------- every step of every thread keeps it ----------

  lemma ProducerKeeps(source: seq<Data>, s: System, n: nat, fault: bool)
    requires Inv(source, s, n)
    ensures Inv(source, Next(source, n, s, ProducerMoves(fault)), n)
  {
    ProducerStepKeeps(source, s.input, s.producer, Consumer(ConsumerState.Raising, s.manager.taken, [], false), fault);
    var r := Next(source, n, s, ProducerMoves(fault));
    forall j | 0 <= j < n ensures OutputOk(r, j) {
      assert OutputOk(s, j);
    }
  }

  lemma ConsumerFrame(q: Queue, c: Consumer, fault: Option<nat>)
    ensures var (q', c') := ConsumerStep(q, c, fault);
            && q'.bound == q.bound && q'.finished == q.finished
            && (q.stopped ==> q'.stopped) && (c.Ended() ==> c'.Ended())
  {
  }

  lemma ChildKeepsFrom(source: seq<Data>, s: System, n: nat, child: nat, q: Queue, c: Consumer)
    requires Inv(source, s, n) && child < n && ConsumerOk(q, c, s.manager.sentTo[child])
    requires q.bound == s.outputs[child].bound && q.finished == s.outputs[child].finished
    requires (s.outputs[child].stopped ==> q.stopped) && (s.children[child].Ended() ==> c.Ended())
    ensures Inv(source, s.(outputs := s.outputs[child := q], children := s.children[child := c]), n)
  {
    var r := s.(outputs := s.outputs[child := q], children := s.children[child := c]);
    forall j | 0 <= j < n ensures OutputOk(r, j) {
      assert OutputOk(s, j);
    }
  }

  lemma ChildKeeps(source: seq<Data>, s: System, n: nat, child: nat, partial: Option<nat>)
    requires Inv(source, s, n)
    ensures Inv(source, Next(source, n, s, ChildMoves(child, partial)), n)
  {
    if child < n {
      assert OutputOk(s, child);
      ConsumerStepKeeps(s.outputs[child], s.children[child], s.manager.sentTo[child], partial);
      ConsumerFrame(s.outputs[child], s.children[child], partial);
      var (q, c) := ConsumerStep(s.outputs[child], s.children[child], partial);
      ChildKeepsFrom(source, s, n, child, q, c);
    }
  }

  lemma SendingKeepsManager(source: seq<Data>, s: System, n: nat)
    requires Shape(s, n) && ManagerOk(source, s, n) && s.manager.state.Sending?
    ensures ManagerOk(source, ManagerStep(s, n), n)
  {
  }

  lemma ManagerKeepsItself(source: seq<Data>, s: System, n: nat)
    requires Shape(s, n) && ManagerOk(source, s, n)
    ensures ManagerOk(source, ManagerStep(s, n), n)
  {
    if s.manager.state.Sending? {
      SendingKeepsManager(source, s, n);
    } else if s.manager.state.Taking? && s.input.items != [] {
      TookOne(s.manager.taken, s.input.items);
    }
  }

  lemma TookOne(taken: seq<Data>, items: seq<Data>)
    requires items != []
    ensures (taken + [items[0]]) + items[1..] == taken + items
    ensures (taken + [items[0]])[..|taken|] == taken
  {
  }

  lemma ManagerKeepsOutput(source: seq<Data>, s: System, n: nat, j: nat)
    requires Shape(s, n) && ManagerOk(source, s, n) && j < n && OutputOk(s, j)
    ensures OutputOk(ManagerStep(s, n), j)
  {
  }

  lemma ManagerKeepsOutputs(source: seq<Data>, s: System, n: nat)
    requires Shape(s, n) && ManagerOk(source, s, n)
    requires forall j :: 0 <= j < n ==> OutputOk(s, j)
    ensures forall j :: 0 <= j < n ==> OutputOk(ManagerStep(s, n), j)
  {
    forall j | 0 <= j < n ensures OutputOk(ManagerStep(s, n), j) {
      ManagerKeepsOutput(source, s, n, j);
    }
  }

  lemma ManagerKeepsRest(source: seq<Data>, s: System, n: nat)
    requires Shape(s, n) && ProducerOk(source, s.input, s.producer) && MainOk(s, n)
    ensures var r := ManagerStep(s, n); ProducerOk(source, r.input, r.producer) && MainOk(r, n)
  {
  }

  lemma ManagerKeeps(source: seq<Data>, s: System, n: nat)
    requires Inv(source, s, n)
    ensures Inv(source, ManagerStep(s, n), n)
  {
    assert Shape(Next(source, n, s, ManagerMoves), n);
    ManagerKeepsItself(source, s, n);
    ManagerKeepsRest(source, s, n);
    ManagerKeepsOutputs(source, s, n);
  }

  lemma MainKeeps(source: seq<Data>, s: System, n: nat, failed: bool)
    requires Inv(source, s, n)
    ensures Inv(source, MainStep(s, n, failed), n)
  {
    MainKeepsItself(source, s, n, failed);
    var r := MainStep(s, n, failed);
    assert r.(main := s.main, stored := s.stored) == s;
    forall j | 0 <= j < n ensures OutputOk(r, j) {
      assert OutputOk(s, j);
    }
  }

  lemma MainKeepsItself(source: seq<Data>, s: System, n: nat, failed: bool)
    requires Shape(s, n) && ProducerOk(source, s.input, s.producer) && MainOk(s, n)
    ensures MainOk(MainStep(s, n, failed), n)
  {
  }

  lemma NextKeepsInv(source: seq<Data>, s: System, n: nat, a: Action)
    requires Inv(source, s, n)
    ensures Inv(source, Next(source, n, s, a), n)
  {
    match a
    case ProducerMoves(fault) => ProducerKeeps(source, s, n, fault);
    case ManagerMoves => ManagerKeeps(source, s, n);
    case ChildMoves(child, partial) => ChildKeeps(source, s, n, child, partial);
    case MainMoves(failed) => MainKeeps(source, s, n, failed);
  }

  lemma {:induction false} RunKeepsInv(source: seq<Data>, bound: int, n: nat, actions: seq<Action>)
    ensures Inv(source, Run(source, bound, n, actions), n)
  {
    if actions == [] {
    } else {
      RunKeepsInv(source, bound, n, actions[..|actions| - 1]);
      NextKeepsInv(source, Run(source, bound, n, actions[..|actions| - 1]), n, actions[|actions| - 1]);
    }
  }

  // ---------- what a broadcast guarantees ----------

  /**
   * At every step every output was put a prefix of what was taken, which is a prefix of the source;
   * outputs earlier in the list are ahead of later ones by at most one message; none loses a message.
   */
  lemma OutputsMoveInStep(source: seq<Data>, bound: int, n: nat, actions: seq<Action>, j: nat, k: nat)
    requires j <= k < n
    ensures var s := Run(source, bound, n, actions);
            var m := s.manager;
            && m.taken + s.input.items == s.producer.sent <= source
            && m.sentTo[k] <= m.sentTo[j] <= m.taken <= source
            && |m.taken| <= |m.sentTo[k]| + 1
            && s.children[j].received + s.outputs[j].items == m.sentTo[j]
            && |s.outputs[j].items| <= 2
  {
    RunKeepsInv(source, bound, n, actions);
    var s := Run(source, bound, n, actions);
    assert OutputOk(s, j);
    var m := s.manager;
    assert SomeSent(m.taken, m.sentTo);
    assert m.taken <= s.producer.sent;
  }

  /** When the broadcast returns normally, every output was sent the whole source and then finished. */
  lemma NormalReturnSentEverything(source: seq<Data>, bound: int, n: nat, actions: seq<Action>, j: nat)
    requires j < n
    ensures var s := Run(source, bound, n, actions);
            s.manager.state.AwaitChildren? || s.manager.state.Returned? ==>
              s.manager.sentTo[j] == source && s.outputs[j].finished && !s.manager.putRaised
  {
    RunKeepsInv(source, bound, n, actions);
    var s := Run(source, bound, n, actions);
    assert OutputOk(s, j);
    assert Complete(s.manager.state) ==> s.manager.taken == s.manager.taken + s.input.items;
  }

  /** When a put raised, the input and all outputs end up force-stopped and nothing is ever published. */
  lemma FailedPutStopsEverything(source: seq<Data>, bound: int, n: nat, actions: seq<Action>, j: nat)
    requires j < n
    ensures var s := Run(source, bound, n, actions);
            s.manager.putRaised ==>
              && (s.manager.state.StopAll? || (s.input.stopped && s.outputs[j].stopped))
              && !s.stored[j].engineMeta && !s.stored[j].visible && !s.main.Published?
  {
    RunKeepsInv(source, bound, n, actions);
    assert OutputOk(Run(source, bound, n, actions), j);
  }

  /** When the input fails instead, no output is ever finished, so no storage thread ends normally. */
  lemma FailedInputLeavesOutputsOpen(source: seq<Data>, bound: int, n: nat, actions: seq<Action>, j: nat)
    requires j < n
    ensures var s := Run(source, bound, n, actions);
            s.manager.state.Rethrow? || s.manager.Reported() ==>
              !s.outputs[j].finished && !s.children[j].state.Done? && !s.stored[j].visible
  {
    RunKeepsInv(source, bound, n, actions);
    assert OutputOk(Run(source, bound, n, actions), j);
  }

  /** A storage that lists the backup holds the whole stream, or a prefix of it when its own thread failed. */
  lemma VisibleIsCompleteOrFailed(source: seq<Data>, bound: int, n: nat, actions: seq<Action>, j: nat)
    requires j < n
    ensures var s := Run(source, bound, n, actions);
            && s.children[j].written <= Flatten(source)
            && (s.stored[j].visible ==>
                  && s.stored[j].engineMeta
                  && (s.children[j].written == Flatten(source) || s.children[j].state.Failed?))
  {
    RunKeepsInv(source, bound, n, actions);
    var s := Run(source, bound, n, actions);
    assert OutputOk(s, j);
    NormalReturnSentEverything(source, bound, n, actions, j);
    OutputsMoveInStep(source, bound, n, actions, j, j);
    FileIsPrefix(s.outputs[j], s.children[j], s.manager.sentTo[j]);
    FlattenPrefix(s.manager.sentTo[j], source);
    if s.children[j].state.Done? {
      assert s.children[j].received + [] == s.children[j].received;
    }
  }

  predicate Failing(c: Consumer) {
    c.state.Raising? || c.state.Reported? || c.state.Failed?
  }

  /** Any further interleaving from any state. */
  function Steps(source: seq<Data>, n: nat, s: System, actions: seq<Action>): (r: System)
    requires Shape(s, n)
    ensures Shape(r, n)
    decreases |actions|
  {
    if actions == [] then s else Steps(source, n, Next(source, n, s, actions[0]), actions[1..])
  }

  lemma {:induction false} RunThenSteps(source: seq<Data>, bound: int, n: nat, actions: seq<Action>, more: seq<Action>)
    ensures Run(source, bound, n, actions + more) == Steps(source, n, Run(source, bound, n, actions), more)
    decreases |more|
  {
    if more == [] {
      assert actions + more == actions;
    } else {
      RunOneMore(source, bound, n, actions, more[0]);
      assert (actions + [more[0]]) + more[1..] == actions + more;
      RunThenSteps(source, bound, n, actions + [more[0]], more[1..]);
    }
  }

  lemma RunOneMore(source: seq<Data>, bound: int, n: nat, actions: seq<Action>, a: Action)
    ensures Run(source, bound, n, actions + [a]) == Next(source, n, Run(source, bound, n, actions), a)
  {
    assert (actions + [a])[..|actions|] == actions;
  }

  lemma {:induction false} FailedFileStays(source: seq<Data>, n: nat, s: System, actions: seq<Action>, j: nat)
    requires Shape(s, n) && j < n && Failing(s.children[j])
    ensures Steps(source, n, s, actions).children[j].written == s.children[j].written
    decreases |actions|
  {
    if actions == [] {
    } else {
      FailingStays(source, n, s, actions[0], j);
      FailedFileStays(source, n, Next(source, n, s, actions[0]), actions[1..], j);
    }
  }

  lemma FailingStays(source: seq<Data>, n: nat, s: System, a: Action, j: nat)
    requires Shape(s, n) && j < n && Failing(s.children[j])
    ensures var r := Next(source, n, s, a);
            Failing(r.children[j]) && r.children[j].written == s.children[j].written
  {
  }

  /**
   * When a storage thread fails, its file is complete for good exactly if the failing step wrote the message
   * in hand whole and nothing but empty messages was still to come, as at the close.
   */
  lemma FailedFileIsCompleteIff(source: seq<Data>, bound: int, n: nat, actions: seq<Action>, j: nat,
                                fault: Option<nat>, more: seq<Action>)
    requires j < n
    requires var s := Run(source, bound, n, actions); Fails(s.outputs[j], s.children[j], fault)
    ensures Run(source, bound, n, actions + [ChildMoves(j, fault)] + more).children[j].written == Flatten(source)
            <==> FailsComplete(source, Run(source, bound, n, actions).children[j], fault)
  {
    RunKeepsInv(source, bound, n, actions);
    var s := Run(source, bound, n, actions);
    assert OutputOk(s, j);
    OutputsMoveInStep(source, bound, n, actions, j, j);
    FailingStepCompletesIff(source, s.outputs[j], s.children[j], s.manager.sentTo[j], fault);
    RunOneMore(source, bound, n, actions, ChildMoves(j, fault));
    RunThenSteps(source, bound, n, actions + [ChildMoves(j, fault)], more);
    FailedFileStays(source, n, Next(source, n, s, ChildMoves(j, fault)), more, j);
  }

  // ---------- and what it does not: a failed storage thread is not noticed ----------

  ghost predicate Reaches(source: seq<Data>, n: nat, s: System) {
    exists actions :: Run(source, 2, n, actions) == s
  }

  lemma StartReaches(source: seq<Data>, n: nat)
    ensures Reaches(source, n, Init(2, n))
  {
    assert Run(source, 2, n, []) == Init(2, n);
  }

  lemma Turn(source: seq<Data>, n: nat, s: System, a: Action) returns (r: System)
    requires Shape(s, n) && Reaches(source, n, s)
    ensures r == Next(source, n, s, a) && Reaches(source, n, r)
  {
    var actions :| Run(source, 2, n, actions) == s;
    assert (actions + [a])[..|actions|] == actions;
    r := Run(source, 2, n, actions + [a]);
  }

  /** The only storage was sent a one-message source, and the broadcast waits for its thread. */
  function Sent(message: Data): System {
    System(Queue([], 2, true, false), Producer(Finished, [message], false),
           Manager(AwaitChildren, [message], [[message]], false),
           [Queue([message], 2, true, false)], [Consumer(Opening, [], [], false)],
           AwaitThreads, [Stored(false, false, false)])
  }

  function Taken(message: Data): System {
    Sent(message).(manager := Manager(Sending(message, 0), [message], [[]], false),
                   outputs := [Queue([], 2, false, false)])
  }

  function PassedOn(message: Data): System {
    Sent(message).(manager := Manager(Sending(message, 1), [message], [[message]], false),
                   outputs := [Queue([message], 2, false, false)])
  }

  function SourceSent(message: Data): System {
    Init(2, 1).(input := Queue([message], 2, true, false), producer := Producer(Finished, [message], false))
  }

  lemma SourceIsReached(message: Data)
    ensures Reaches([message], 1, SourceSent(message))
  {
    StartReaches([message], 1);
    var s := Turn([message], 1, Init(2, 1), ProducerMoves(false));
    s := Turn([message], 1, s, ProducerMoves(false));
    assert s == SourceSent(message);
  }

  lemma TakenIsReached(message: Data)
    ensures Reaches([message], 1, Taken(message))
  {
    LookedIsReached(message);
    var s := Turn([message], 1, Looked(message), ManagerMoves);
    s := Turn([message], 1, s, ManagerMoves);
    assert s == Taken(message);
  }

  function Looked(message: Data): System {
    SourceSent(message).(manager := Manager(LookEmpty, [], [[]], false))
  }

  lemma LookedIsReached(message: Data)
    ensures Reaches([message], 1, Looked(message))
  {
    SourceIsReached(message);
    var s := Turn([message], 1, SourceSent(message), ManagerMoves);
    s := Turn([message], 1, s, ManagerMoves);
    assert s == Looked(message);
  }

  lemma PassedOnIsReached(message: Data)
    ensures Reaches([message], 1, PassedOn(message))
  {
    TakenIsReached(message);
    TakenThenPassed(message);
    var s := Turn([message], 1, Taken(message), ManagerMoves);
  }

  lemma TakenThenPassed(message: Data)
    ensures ManagerStep(Taken(message), 1) == PassedOn(message)
  {
    assert [] + [message] == [message];
    assert [[]][0 := [message]] == [[message]];
    assert PutTurn(Queue([], 2, false, false), message) == (Queue([message], 2, false, false), true);
    assert [Queue([], 2, false, false)][0 := Queue([message], 2, false, false)] == [Queue([message], 2, false, false)];
  }

  function Drained(message: Data): System {
    PassedOn(message).(manager := Manager(Finishing(0), [message], [[message]], false))
  }

  lemma DrainedIsReached(message: Data)
    ensures Reaches([message], 1, Drained(message))
  {
    PassedOnIsReached(message);
    var s := Turn([message], 1, PassedOn(message), ManagerMoves);
    s := Turn([message], 1, s, ManagerMoves);
    assert s == PassedOn(message).(manager := Manager(LookFinish, [message], [[message]], false));
    s := Turn([message], 1, s, ManagerMoves);
    s := Turn([message], 1, s, ManagerMoves);
    assert s == Drained(message);
  }

  lemma SentIsReached(message: Data)
    ensures Reaches([message], 1, Sent(message))
  {
    DrainedIsReached(message);
    var s := Turn([message], 1, Drained(message), ManagerMoves);
    assert s.outputs == Sent(message).outputs;
    s := Turn([message], 1, s, ManagerMoves);
    assert s == Sent(message);
  }

  /** Then its file could not be opened. */
  function Lost(message: Data): System {
    Sent(message).(outputs := [Queue([message], 2, true, true)],
                   children := [Consumer(ConsumerState.Failed, [], [], true)])
  }

  function Losing(message: Data): System {
    Sent(message).(children := [Consumer(ConsumerState.Reported, [], [], true)])
  }

  lemma LosingIsReached(message: Data)
    ensures Reaches([message], 1, Losing(message))
  {
    SentIsReached(message);
    var s := Turn([message], 1, Sent(message), ChildMoves(0, Some(0)));
    assert s.outputs == Sent(message).outputs;
    s := Turn([message], 1, s, ChildMoves(0, None));
    assert s == Losing(message);
  }

  lemma LostIsReached(message: Data)
    ensures Reaches([message], 1, Lost(message))
  {
    LosingIsReached(message);
    var s := Turn([message], 1, Losing(message), ChildMoves(0, None));
    assert s == Lost(message);
  }

  function Unnoticed(message: Data): System {
    Lost(message).(manager := Manager(Returned, [message], [[message]], false), main := Publishing(0, 0))
  }

  lemma ReturnedIsReached(message: Data)
    ensures Reaches([message], 1, Unnoticed(message))
  {
    LostIsReached(message);
    var s := Turn([message], 1, Lost(message), ManagerMoves);
    s := Turn([message], 1, s, MainMoves(false));
    assert s == Unnoticed(message);
  }

  /** The failed storage ends up listing a published backup whose data file is empty. */
  lemma FailedStorageIsPublished(message: Data) returns (s: System)
    ensures Reaches([message], 1, s)
    ensures s.main.Published? && s.stored == [Stored(true, true, true)]
    ensures |s.children| == 1 && s.children[0].state.Failed? && s.children[0].written == []
  {
    ReturnedIsReached(message);
    s := Turn([message], 1, Unnoticed(message), MainMoves(false));
    s := Turn([message], 1, s, MainMoves(false));
    s := Turn([message], 1, s, MainMoves(false));
    s := Turn([message], 1, s, MainMoves(false));
  }
}
