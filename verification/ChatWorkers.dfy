/** The workers of one chat: the poll loop queues messages for the current worker and replaces it
    once its queue is closed, while workers start, handle, are cancelled, aborted and wind down on
    other threads. Every shared access is a step of its own. */
module ChatWorkers {
  import opened Prelude

  const CHAT_QUEUE_SIZE := 32

  /** Messages are numbered in the order the poll loop takes them. */
  type Message = nat

  /** Where a worker's task stands. Winding down drops the registration guard, then the receiver;
      a task aborted before its first poll has no guard to drop. */
  datatype Phase =
    | Unstarted
    | AtTop
    | Waiting
    | Holding(held: Message)
    | Handling(message: Message)
    | Leaving
    | Unregistered
    | Gone

  datatype Worker = Worker(phase: Phase, queue: seq<Message>, cancelled: bool, aborted: bool)

  /** Where the poll loop stands in handing over a message; `respawned` if the worker was spawned because
      the previous one turned out closed. */
  datatype Poll =
    | Ready
    | Registering(worker: nat, message: Message, respawned: bool)
    | Sending(worker: nat, message: Message, respawned: bool)

  /** Workers are named by their position: identifiers are handed out once. `handled` lists the
      messages whose handling has begun. */
  datatype Chat = Chat(
    workers: seq<Worker>, dispatcher: Option<nat>, registry: Option<nat>, poll: Poll,
    taken: nat, handled: seq<Message>, stopped: bool)

  const NO_WORKERS := Chat([], None, None, Ready, 0, [], false)

  datatype Event =
    | Take
    | Register
    | TrySend
    | Retain
    | Start(worker: nat)
    | CheckTop(worker: nat, allowed: bool)
    | Receive(worker: nat)
    | Admit(worker: nat, allowed: bool)
    | FinishMessage(worker: nat)
    | IdleOut(worker: nat)
    | AbortTakes(worker: nat)
    | DropGuard(worker: nat)
    | DropReceiver(worker: nat)
    | Cancel(abort: bool)
    | Reactivate
    | Shutdown

  function Spawn(s: Chat, message: Message, respawned: bool): Chat {
    s.(workers := s.workers + [Worker(Unstarted, [], false, false)],
       poll := Registering(|s.workers|, message, respawned))
  }

  /** The poll loop takes the next message. */
  function TakeMessage(s: Chat): Chat {
    if !s.poll.Ready? || s.stopped then s
    else
      var next := s.(taken := s.taken + 1);
      match s.dispatcher
      case Some(w) => next.(poll := Sending(w, s.taken, false))
      case None => Spawn(next, s.taken, false)
  }

  function RegisterWorker(s: Chat): Chat {
    match s.poll
    case Registering(w, message, respawned) =>
      s.(registry := Some(w), dispatcher := if respawned then s.dispatcher else Some(w),
         poll := Sending(w, message, respawned))
    case _ => s
  }

  function SendMessage(s: Chat): Chat {
    match s.poll
    case Sending(w, message, respawned) =>
      if w >= |s.workers| then s
      else
        var worker := s.workers[w];
        if worker.phase.Gone? && !respawned then Spawn(s, message, true)
        else
          var done := s.(dispatcher := Some(w), poll := Ready);
          if worker.phase.Gone? || |worker.queue| >= CHAT_QUEUE_SIZE then done
          else done.(workers := s.workers[w := worker.(queue := worker.queue + [message])])
    case _ => s
  }

  function RetainOpen(s: Chat): Chat {
    match s.dispatcher
    case None => s
    case Some(w) =>
      if !s.poll.Ready? || w >= |s.workers| || !s.workers[w].phase.Gone? then s
      else s.(dispatcher := None, registry := Unregister(s.registry, w))
  }

  function Unregister(registry: Option<nat>, w: nat): Option<nat> {
    if registry == Some(w) then None else registry
  }

  function SetPhase(s: Chat, w: nat, phase: Phase): Chat
    requires w < |s.workers|
  {
    s.(workers := s.workers[w := s.workers[w].(phase := phase)])
  }

  function ReceiveMessage(s: Chat, w: nat): Chat {
    if w >= |s.workers| || !s.workers[w].phase.Waiting? || s.workers[w].queue == [] then s
    else
      var worker := s.workers[w];
      s.(workers := s.workers[w := worker.(phase := Holding(worker.queue[0]), queue := worker.queue[1..])])
  }

  /** The checks between taking a message from the queue and handling it. */
  function AdmitMessage(s: Chat, w: nat, allowed: bool): Chat {
    if w >= |s.workers| || !s.workers[w].phase.Holding? then s
    else
      var message := s.workers[w].phase.held;
      if s.workers[w].cancelled || !allowed then SetPhase(s, w, Leaving)
      else SetPhase(s, w, Handling(message)).(handled := s.handled + [message])
  }

  /** Any other step of a worker's task. */
  function WorkerStep(s: Chat, w: nat, e: Event): Chat {
    if w >= |s.workers| then s
    else
      var worker := s.workers[w];
      match (e, worker.phase)
      case (Start(_), Unstarted) => SetPhase(s, w, AtTop)
      case (CheckTop(_, allowed), AtTop) => SetPhase(s, w, if worker.cancelled || !allowed then Leaving else Waiting)
      case (FinishMessage(_), Handling(_)) => SetPhase(s, w, AtTop)
      case (IdleOut(_), Waiting) => SetPhase(s, w, Leaving)
      case (AbortTakes(_), Unstarted) => if worker.aborted then SetPhase(s, w, Unregistered) else s
      case (AbortTakes(_), AtTop) => if worker.aborted then SetPhase(s, w, Leaving) else s
      case (AbortTakes(_), Waiting) => if worker.aborted then SetPhase(s, w, Leaving) else s
      case (AbortTakes(_), Holding(_)) => if worker.aborted then SetPhase(s, w, Leaving) else s
      case (AbortTakes(_), Handling(_)) => if worker.aborted then SetPhase(s, w, Leaving) else s
      case (DropGuard(_), Leaving) => SetPhase(s, w, Unregistered).(registry := Unregister(s.registry, w))
      case (DropReceiver(_), Unregistered) => SetPhase(s, w, Gone)
      case _ => s
  }

  /** Marks the registered worker cancelled, and aborts its task if asked to. */
  function CancelRegistered(s: Chat, abort: bool): Chat {
    match s.registry
    case None => s
    case Some(w) =>
      if w >= |s.workers| then s
      else
        var worker := s.workers[w];
        s.(workers := s.workers[w := worker.(cancelled := true, aborted := worker.aborted || abort)])
  }

  function ReactivateRegistered(s: Chat): Chat {
    match s.registry
    case None => s
    case Some(w) =>
      if w >= |s.workers| then s else s.(workers := s.workers[w := s.workers[w].(cancelled := false)])
  }

  function StopWorkers(s: Chat): Chat {
    if !s.poll.Ready? then s
    else
      var stopped := s.(stopped := true, dispatcher := None);
      match s.dispatcher
      case None => stopped
      case Some(w) =>
        if w >= |s.workers| then stopped
        else
          stopped.(workers := s.workers[w := s.workers[w].(cancelled := true, aborted := true)],
                   registry := Unregister(s.registry, w))
  }

  function Step(s: Chat, e: Event): Chat {
    match e
    case Take => TakeMessage(s)
    case Register => RegisterWorker(s)
    case TrySend => SendMessage(s)
    case Retain => RetainOpen(s)
    case Cancel(abort) => CancelRegistered(s, abort)
    case Reactivate => ReactivateRegistered(s)
    case Shutdown => StopWorkers(s)
    case Start(w) => WorkerStep(s, w, e)
    case CheckTop(w, _) => WorkerStep(s, w, e)
    case Receive(w) => ReceiveMessage(s, w)
    case Admit(w, allowed) => AdmitMessage(s, w, allowed)
    case FinishMessage(w) => WorkerStep(s, w, e)
    case IdleOut(w) => WorkerStep(s, w, e)
    case AbortTakes(w) => WorkerStep(s, w, e)
    case DropGuard(w) => WorkerStep(s, w, e)
    case DropReceiver(w) => WorkerStep(s, w, e)
  }

  function Run(s: Chat, events: seq<Event>): Chat
    decreases events
  {
    if events == [] then s else Run(Step(s, events[0]), events[1..])
  }

  // ---------- Invariant ----------

  /** The worker the poll loop would use. */
  function Current(s: Chat): Option<nat> {
    if s.poll.Ready? then s.dispatcher else Some(s.poll.worker)
  }

  /** Only the last worker spawned may still be running, and the poll loop knows of it. */
  ghost predicate LoneInv(s: Chat) {
    && (forall w :: 0 <= w < |s.workers| - 1 ==> s.workers[w].phase.Gone?)
    && (Current(s).Some? ==> Current(s).value + 1 == |s.workers|)
    && (s.workers != [] && !s.workers[|s.workers| - 1].phase.Gone? && !s.stopped ==> Current(s).Some?)
    && (s.stopped ==> s.poll.Ready? && s.dispatcher.None?)
  }

  /** A worker that has not begun to leave the registry is registered, except while it is being
      registered and after the shutdown. */
  ghost predicate RegistryInv(s: Chat) {
    s.workers != [] && !s.stopped ==>
      var w := |s.workers| - 1;
      !s.workers[w].phase.Unregistered? && !s.workers[w].phase.Gone? && !(s.poll.Registering? && s.poll.worker == w)
      ==> s.registry == Some(w)
  }

  /** Messages not handled yet: the one a worker holds, its queue, and the one being handed over. */
  function InFlight(worker: Worker): seq<Message> {
    if worker.phase.Holding? then [worker.phase.held] + worker.queue else worker.queue
  }

  function Pending(s: Chat): seq<Message> {
    if s.workers == [] then HandedOver(s) else InFlight(s.workers[|s.workers| - 1]) + HandedOver(s)
  }

  function HandedOver(s: Chat): seq<Message> {
    if s.poll.Ready? then [] else [s.poll.message]
  }

  ghost predicate Increasing(q: seq<Message>, bound: nat) {
    && (forall i, j :: 0 <= i < j < |q| ==> q[i] < q[j])
    && (forall i :: 0 <= i < |q| ==> q[i] < bound)
  }

  /** Everything handled or still to be handled. */
  function Backlog(s: Chat): seq<Message> {
    s.handled + Pending(s)
  }

  ghost predicate OrderInv(s: Chat) {
    Increasing(Backlog(s), s.taken)
  }

  /** Only workers are registered, and the one being registered is not yet. */
  ghost predicate KnownInv(s: Chat) {
    && (s.registry.Some? ==> s.registry.value < |s.workers|)
    && (s.poll.Registering? ==> s.registry != Some(s.poll.worker))
  }

  ghost predicate ShapeInv(s: Chat) {
    LoneInv(s) && RegistryInv(s) && KnownInv(s)
  }

  // ---------- One worker at a time ----------

  lemma {:induction false} SpawnKeepsShape(s: Chat, message: Message, respawned: bool)
    requires ShapeInv(s) && !s.stopped && (s.workers != [] ==> s.workers[|s.workers| - 1].phase.Gone?)
    ensures ShapeInv(Spawn(s, message, respawned))
  {
  }

  lemma {:induction false} TakeKeepsShape(s: Chat)
    requires ShapeInv(s)
    ensures ShapeInv(TakeMessage(s))
  {
    if s.poll.Ready? && !s.stopped && s.dispatcher.None? {
      SpawnKeepsShape(s.(taken := s.taken + 1), s.taken, false);
    }
  }

  lemma {:induction false} SendKeepsShape(s: Chat)
    requires ShapeInv(s)
    ensures ShapeInv(SendMessage(s))
  {
    if s.poll.Sending? && s.poll.worker < |s.workers| {
      var worker := s.workers[s.poll.worker];
      if worker.phase.Gone? && !s.poll.respawned {
        SpawnKeepsShape(s, s.poll.message, true);
      } else {
        WorkerKeepsShape(s, s.poll.worker, worker.(queue := worker.queue + [s.poll.message]));
      }
    }
  }

  /** Flags and queues do not matter. */
  lemma {:induction false} WorkerKeepsShape(s: Chat, w: nat, worker: Worker)
    requires ShapeInv(s) && w < |s.workers| && worker.phase == s.workers[w].phase
    ensures ShapeInv(s.(workers := s.workers[w := worker]))
  {
    var t := s.(workers := s.workers[w := worker]);
    assert forall v :: 0 <= v < |s.workers| ==> t.workers[v].phase == s.workers[v].phase;
  }

  /** A phase never turns back to one in which the worker must be registered. */
  lemma {:induction false} PhaseKeepsShape(s: Chat, w: nat, worker: Worker)
    requires ShapeInv(s) && w < |s.workers| && !s.workers[w].phase.Gone?
    requires s.workers[w].phase.Unregistered? ==> worker.phase.Gone?
    ensures ShapeInv(s.(workers := s.workers[w := worker]))
  {
  }

  lemma {:induction false} WorkerStepKeepsShape(s: Chat, w: nat, e: Event)
    requires ShapeInv(s)
    ensures ShapeInv(WorkerStep(s, w, e))
  {
    if w < |s.workers| && !s.workers[w].phase.Gone? {
      var phase := WorkerStep(s, w, e).workers[w].phase;
      if s.workers[w].phase != phase {
        PhaseKeepsShape(s, w, s.workers[w].(phase := phase));
      }
    }
  }

  lemma {:induction false} StopKeepsShape(s: Chat)
    requires ShapeInv(s)
    ensures ShapeInv(StopWorkers(s))
  {
    if s.poll.Ready? && s.dispatcher.Some? && s.dispatcher.value < |s.workers| {
      var w := s.dispatcher.value;
      WorkerKeepsShape(s, w, s.workers[w].(cancelled := true, aborted := true));
    }
  }

  lemma {:induction false} StepKeepsShape(s: Chat, e: Event)
    requires ShapeInv(s)
    ensures ShapeInv(Step(s, e))
  {
    match e
    case Take => TakeKeepsShape(s);
    case TrySend => SendKeepsShape(s);
    case Register =>
    case Retain =>
    case Cancel(abort) =>
      if s.registry.Some? {
        var worker := s.workers[s.registry.value];
        WorkerKeepsShape(s, s.registry.value, worker.(cancelled := true, aborted := worker.aborted || abort));
      }
    case Reactivate =>
      if s.registry.Some? {
        WorkerKeepsShape(s, s.registry.value, s.workers[s.registry.value].(cancelled := false));
      }
    case Shutdown => StopKeepsShape(s);
    case Receive(w) =>
      if w < |s.workers| && s.workers[w].phase.Waiting? && s.workers[w].queue != [] {
        PhaseKeepsShape(s, w, ReceiveMessage(s, w).workers[w]);
      }
    case Admit(w, allowed) =>
      if w < |s.workers| && s.workers[w].phase.Holding? {
        PhaseKeepsShape(s, w, AdmitMessage(s, w, allowed).workers[w]);
      }
    case _ => WorkerStepKeepsShape(s, e.worker, e);
  }

  // ---------- Messages in order ----------

  lemma {:induction false} Whole(q: seq<Message>)
    ensures q == q + ([] + []) == q + []
  {
  }

  lemma {:induction false} Regroup(a: seq<Message>, b: seq<Message>, c: seq<Message>, d: seq<Message>)
    ensures a + ((b + c) + d) == a + (b + (c + d)) == (a + b) + (c + d)
  {
  }

  /** What is pending once the last worker is named. */
  lemma {:induction false} BacklogIs(s: Chat, w: nat)
    requires w + 1 == |s.workers|
    ensures Backlog(s) == s.handled + (InFlight(s.workers[w]) + HandedOver(s))
  {
  }

  /** The worker moves on, and loses a message it held but did not handle. */
  lemma {:induction false} PhaseTrims(s: Chat, w: nat, phase: Phase)
      returns (a: seq<Message>, b: seq<Message>, c: seq<Message>)
    requires LoneInv(s) && w < |s.workers| && !s.workers[w].phase.Gone? && !phase.Holding?
    ensures Backlog(s) == a + (b + c) && Backlog(SetPhase(s, w, phase)) == a + c
  {
    var worker := s.workers[w];
    BacklogIs(s, w);
    BacklogIs(SetPhase(s, w, phase), w);
    a, b, c := s.handled, [], worker.queue + HandedOver(s);
    if worker.phase.Holding? {
      b := [worker.phase.held];
      Regroup(a, b, worker.queue, HandedOver(s));
    } else {
      assert b + c == c;
    }
  }

  lemma {:induction false} ReceiveSame(s: Chat, w: nat)
    requires LoneInv(s)
    ensures Backlog(ReceiveMessage(s, w)) == Backlog(s)
  {
    if w < |s.workers| && s.workers[w].phase.Waiting? && s.workers[w].queue != [] {
      var t := ReceiveMessage(s, w);
      BacklogIs(s, w);
      BacklogIs(t, w);
      assert InFlight(t.workers[w]) == InFlight(s.workers[w]);
    }
  }

  lemma {:induction false} HandleSame(s: Chat, w: nat, message: Message)
    requires w + 1 == |s.workers| && s.workers[w].phase == Holding(message)
    ensures Backlog(SetPhase(s, w, Handling(message)).(handled := s.handled + [message])) == Backlog(s)
  {
    BacklogIs(s, w);
    BacklogIs(SetPhase(s, w, Handling(message)).(handled := s.handled + [message]), w);
    Regroup(s.handled, [message], s.workers[w].queue, HandedOver(s));
  }

  lemma {:induction false} AdmitTrims(s: Chat, w: nat, allowed: bool)
      returns (a: seq<Message>, b: seq<Message>, c: seq<Message>)
    requires LoneInv(s)
    ensures Backlog(s) == a + (b + c) && Backlog(AdmitMessage(s, w, allowed)) == a + c
  {
    if w < |s.workers| && s.workers[w].phase.Holding? && (s.workers[w].cancelled || !allowed) {
      a, b, c := PhaseTrims(s, w, Leaving);
    } else {
      a, b, c := Backlog(s), [], [];
      Whole(a);
      if w < |s.workers| && s.workers[w].phase.Holding? {
        HandleSame(s, w, s.workers[w].phase.held);
      }
    }
  }

  /** What such a step leaves of a running worker, but for its phase. */
  lemma {:induction false} OnlyPhaseChanges(s: Chat, w: nat, e: Event) returns (phase: Phase)
    requires w < |s.workers| && WorkerStep(s, w, e) != s
    ensures !s.workers[w].phase.Gone? && !phase.Holding?
    ensures Backlog(WorkerStep(s, w, e)) == Backlog(SetPhase(s, w, phase))
  {
    phase := WorkerStep(s, w, e).workers[w].phase;
  }

  lemma {:induction false} WorkerStepTrims(s: Chat, w: nat, e: Event)
      returns (a: seq<Message>, b: seq<Message>, c: seq<Message>)
    requires LoneInv(s)
    ensures Backlog(s) == a + (b + c) && Backlog(WorkerStep(s, w, e)) == a + c
  {
    if w < |s.workers| && WorkerStep(s, w, e) != s {
      var phase := OnlyPhaseChanges(s, w, e);
      a, b, c := PhaseTrims(s, w, phase);
    } else {
      a, b, c := Backlog(s), [], [];
      Whole(a);
    }
  }

  lemma {:induction false} SpawnBacklog(s: Chat, message: Message, respawned: bool)
    ensures Backlog(Spawn(s, message, respawned)) == s.handled + [message]
  {
    BacklogIs(Spawn(s, message, respawned), |s.workers|);
    assert [] + [message] == [message];
  }

  lemma {:induction false} RespawnTrims(s: Chat, w: nat)
    requires s.poll.Sending? && w + 1 == |s.workers|
    ensures Backlog(s) == s.handled + (InFlight(s.workers[w]) + [s.poll.message])
    ensures Backlog(Spawn(s, s.poll.message, true)) == s.handled + [s.poll.message]
  {
    BacklogIs(s, w);
    SpawnBacklog(s, s.poll.message, true);
  }

  lemma {:induction false} RefuseTrims(s: Chat, w: nat)
    requires s.poll.Sending? && w + 1 == |s.workers|
    ensures var front := s.handled + InFlight(s.workers[w]);
      && Backlog(s) == front + ([s.poll.message] + [])
      && Backlog(s.(dispatcher := Some(w), poll := Ready)) == front + []
  {
    BacklogIs(s, w);
    BacklogIs(s.(dispatcher := Some(w), poll := Ready), w);
  }

  lemma {:induction false} QueueSame(s: Chat, w: nat)
    requires s.poll.Sending? && w + 1 == |s.workers|
    ensures var worker := s.workers[w];
      Backlog(s.(dispatcher := Some(w), poll := Ready,
                 workers := s.workers[w := worker.(queue := worker.queue + [s.poll.message])])) == Backlog(s)
  {
    var worker := s.workers[w];
    var next := worker.(queue := worker.queue + [s.poll.message]);
    BacklogIs(s, w);
    BacklogIs(s.(dispatcher := Some(w), poll := Ready, workers := s.workers[w := next]), w);
    assert InFlight(next) + [] == InFlight(worker) + [s.poll.message];
  }

  /** A message is queued, or refused, or handed to a new worker while the old one's queue is lost. */
  lemma {:induction false} SendTrims(s: Chat) returns (a: seq<Message>, b: seq<Message>, c: seq<Message>)
    requires LoneInv(s)
    ensures Backlog(s) == a + (b + c) && Backlog(SendMessage(s)) == a + c
  {
    a, b, c := Backlog(s), [], [];
    Whole(a);
    if s.poll.Sending? && s.poll.worker < |s.workers| {
      var w := s.poll.worker;
      var worker := s.workers[w];
      if worker.phase.Gone? && !s.poll.respawned {
        RespawnTrims(s, w);
        a, b, c := s.handled, InFlight(worker), [s.poll.message];
      } else if worker.phase.Gone? || |worker.queue| >= CHAT_QUEUE_SIZE {
        RefuseTrims(s, w);
        a, b, c := s.handled + InFlight(worker), [s.poll.message], [];
      } else {
        QueueSame(s, w);
      }
    }
  }

  lemma {:induction false} FlagsSame(s: Chat, w: nat, worker: Worker)
    requires LoneInv(s) && w < |s.workers|
    requires worker.phase == s.workers[w].phase && worker.queue == s.workers[w].queue
    ensures Pending(s.(workers := s.workers[w := worker])) == Pending(s)
  {
  }

  lemma {:induction false} StopSame(s: Chat)
    requires LoneInv(s)
    ensures Backlog(StopWorkers(s)) == Backlog(s)
  {
    if s.poll.Ready? && s.dispatcher.Some? && s.dispatcher.value < |s.workers| {
      var w := s.dispatcher.value;
      FlagsSame(s, w, s.workers[w].(cancelled := true, aborted := true));
    }
  }

  lemma {:induction false} CancelSame(s: Chat, abort: bool)
    requires LoneInv(s)
    ensures Backlog(CancelRegistered(s, abort)) == Backlog(s) == Backlog(ReactivateRegistered(s))
  {
    if s.registry.Some? && s.registry.value < |s.workers| {
      var w, worker := s.registry.value, s.workers[s.registry.value];
      FlagsSame(s, w, worker.(cancelled := true, aborted := worker.aborted || abort));
      FlagsSame(s, w, worker.(cancelled := false));
    }
  }

  lemma {:induction false} PollSame(s: Chat)
    ensures Backlog(RegisterWorker(s)) == Backlog(s) == Backlog(RetainOpen(s))
  {
  }

  /** Every step but taking a message leaves the backlog as it is, or loses some of it. */
  lemma {:induction false} StepTrims(s: Chat, e: Event) returns (a: seq<Message>, b: seq<Message>, c: seq<Message>)
    requires LoneInv(s) && !e.Take?
    ensures Backlog(s) == a + (b + c) && Backlog(Step(s, e)) == a + c
  {
    if e.TrySend? {
      a, b, c := SendTrims(s);
    } else if e.Admit? {
      a, b, c := AdmitTrims(s, e.worker, e.allowed);
    } else if e.Register? || e.Retain? || e.Cancel? || e.Reactivate? || e.Shutdown? || e.Receive? {
      StepSame(s, e);
      a, b, c := Backlog(s), [], [];
      Whole(a);
    } else {
      a, b, c := WorkerStepTrims(s, e.worker, e);
    }
  }

  lemma {:induction false} StepSame(s: Chat, e: Event)
    requires LoneInv(s)
    requires e.Register? || e.Retain? || e.Cancel? || e.Reactivate? || e.Shutdown? || e.Receive?
    ensures Backlog(Step(s, e)) == Backlog(s)
  {
    match e
    case Cancel(abort) => CancelSame(s, abort);
    case Reactivate => CancelSame(s, false);
    case Shutdown => StopSame(s);
    case Receive(w) => ReceiveSame(s, w);
    case _ => PollSame(s);
  }

  lemma {:induction false} TakenStays(s: Chat, e: Event)
    requires !e.Take?
    ensures Step(s, e).taken == s.taken
  {
  }

  lemma {:induction false} DropMiddle(a: seq<Message>, b: seq<Message>, c: seq<Message>, bound: nat)
    requires Increasing(a + (b + c), bound)
    ensures Increasing(a + c, bound)
  {
    var q, r := a + (b + c), a + c;
    forall i | 0 <= i < |r|
      ensures r[i] == q[if i < |a| then i else i + |b|]
    {
    }
  }

  lemma {:induction false} AppendNext(q: seq<Message>, bound: nat)
    requires Increasing(q, bound)
    ensures Increasing(q + [bound], bound + 1)
  {
  }

  /** The message taken follows the backlog, or all that was handled if there is no worker. */
  lemma {:induction false} TakeAppends(s: Chat)
    requires LoneInv(s) && s.poll.Ready? && !s.stopped
    ensures var front := if s.dispatcher.Some? then Backlog(s) else s.handled;
      Backlog(TakeMessage(s)) == front + [s.taken]
  {
    if s.dispatcher.None? {
      SpawnBacklog(s.(taken := s.taken + 1), s.taken, false);
    } else {
      var w := s.dispatcher.value;
      BacklogIs(s, w);
      BacklogIs(TakeMessage(s), w);
      Regroup(s.handled, InFlight(s.workers[w]), [], [s.taken]);
      assert InFlight(s.workers[w]) + [] == InFlight(s.workers[w]);
    }
  }

  lemma {:induction false} TakeKeepsOrder(s: Chat)
    requires LoneInv(s) && OrderInv(s)
    ensures OrderInv(TakeMessage(s))
  {
    if s.poll.Ready? && !s.stopped {
      TakeAppends(s);
      if s.dispatcher.Some? {
        AppendNext(Backlog(s), s.taken);
      } else {
        assert s.handled + (Pending(s) + []) == Backlog(s);
        DropMiddle(s.handled, Pending(s), [], s.taken);
        assert s.handled + [] == s.handled;
        AppendNext(s.handled, s.taken);
      }
    }
  }

  lemma {:induction false} StepKeepsOrder(s: Chat, e: Event)
    requires LoneInv(s) && OrderInv(s)
    ensures OrderInv(Step(s, e))
  {
    if e.Take? {
      TakeKeepsOrder(s);
    } else {
      var a, b, c := StepTrims(s, e);
      DropMiddle(a, b, c, s.taken);
      TakenStays(s, e);
    }
  }

  lemma {:induction false} RunKeepsInv(s: Chat, events: seq<Event>)
    requires ShapeInv(s) && OrderInv(s)
    ensures ShapeInv(Run(s, events)) && OrderInv(Run(s, events))
    decreases events
  {
    if events != [] {
      StepKeepsShape(s, events[0]);
      StepKeepsOrder(s, events[0]);
      RunKeepsInv(Step(s, events[0]), events[1..]);
    }
  }

  lemma {:induction false} NoWorkersInv()
    ensures ShapeInv(NO_WORKERS) && OrderInv(NO_WORKERS)
  {
  }

  // ---------- Main results ----------

  /** Across reaping, aborts and respawns, at most one worker of a chat is running, let alone
      handling a message. */
  lemma {:induction false} AtMostOneRuns(events: seq<Event>, v: nat, w: nat)
    ensures var workers := Run(NO_WORKERS, events).workers;
      v < |workers| && !workers[v].phase.Gone? && w < |workers| && !workers[w].phase.Gone? ==> v == w
  {
    NoWorkersInv();
    RunKeepsInv(NO_WORKERS, events);
  }

  /** Messages are handled in the order they arrived, each at most once. */
  lemma {:induction false} HandledInOrder(events: seq<Event>)
    ensures var s := Run(NO_WORKERS, events);
      Increasing(s.handled, s.taken)
  {
    NoWorkersInv();
    RunKeepsInv(NO_WORKERS, events);
    var s := Run(NO_WORKERS, events);
    forall i | 0 <= i < |s.handled|
      ensures s.handled[i] == (s.handled + Pending(s))[i]
    {
    }
  }

  /** The check between queue and handling: a worker that holds a message handles it if it is not
      cancelled and the chat is allowed at that step, and drops it and winds down otherwise; nothing
      else is ever added to what is handled. */
  lemma {:induction false} OnlyAdmittedIsHandled(s: Chat, e: Event)
    ensures var t := Step(s, e);
      var admitted := e.Admit? && e.worker < |s.workers| && s.workers[e.worker].phase.Holding?
                      && !s.workers[e.worker].cancelled && e.allowed;
      t.handled == s.handled + (if admitted then [s.workers[e.worker].phase.held] else [])
  {
    assert s.handled == s.handled + [];
  }

  /** The steps that lose a message: the queue is full or still closed after a respawn; the worker
      that held or had queued it is refused, aborted or gone. */
  predicate Loses(s: Chat, e: Event) {
    match e
    case Take => s.poll.Ready? && !s.stopped && s.dispatcher.None? && Pending(s) != []
    case TrySend =>
      && s.poll.Sending? && s.poll.worker < |s.workers|
      && var worker := s.workers[s.poll.worker];
         if worker.phase.Gone? then s.poll.respawned || worker.queue != [] else |worker.queue| >= 32
    case Admit(w, allowed) =>
      w < |s.workers| && s.workers[w].phase.Holding? && (s.workers[w].cancelled || !allowed)
    case AbortTakes(w) => w < |s.workers| && s.workers[w].phase.Holding? && s.workers[w].aborted
    case _ => false
  }

  predicate LossFree(s: Chat, events: seq<Event>)
    decreases events
  {
    events == [] || (!Loses(s, events[0]) && LossFree(Step(s, events[0]), events[1..]))
  }

  lemma {:induction false} PhaseSame(s: Chat, w: nat, phase: Phase)
    requires LoneInv(s) && w < |s.workers| && !s.workers[w].phase.Gone?
    requires !phase.Holding? && !s.workers[w].phase.Holding?
    ensures Backlog(SetPhase(s, w, phase)) == Backlog(s)
  {
    BacklogIs(s, w);
    BacklogIs(SetPhase(s, w, phase), w);
  }

  lemma {:induction false} WorkerStepSame(s: Chat, w: nat, e: Event)
    requires LoneInv(s) && (e.AbortTakes? ==> !Loses(s, e) && e.worker == w)
    requires e.Start? || e.CheckTop? || e.FinishMessage? || e.IdleOut? || e.AbortTakes?
          || e.DropGuard? || e.DropReceiver?
    ensures Backlog(WorkerStep(s, w, e)) == Backlog(s)
  {
    if w < |s.workers| && WorkerStep(s, w, e) != s {
      assert !s.workers[w].phase.Holding?;
      var phase := OnlyPhaseChanges(s, w, e);
      PhaseSame(s, w, phase);
    }
  }

  lemma {:induction false} AdmitSame(s: Chat, w: nat, allowed: bool)
    requires LoneInv(s) && !Loses(s, Admit(w, allowed))
    ensures Backlog(AdmitMessage(s, w, allowed)) == Backlog(s)
  {
    if w < |s.workers| && s.workers[w].phase.Holding? {
      HandleSame(s, w, s.workers[w].phase.held);
    }
  }

  lemma {:induction false} SendSame(s: Chat)
    requires LoneInv(s) && !Loses(s, TrySend)
    ensures Backlog(SendMessage(s)) == Backlog(s)
  {
    if s.poll.Sending? && s.poll.worker < |s.workers| {
      var w := s.poll.worker;
      if s.workers[w].phase.Gone? {
        RespawnTrims(s, w);
        assert InFlight(s.workers[w]) == [] && [] + [s.poll.message] == [s.poll.message];
      } else {
        QueueSame(s, w);
      }
    }
  }

  lemma {:induction false} TakeSame(s: Chat)
    requires LoneInv(s) && !Loses(s, Take) && s.poll.Ready? && !s.stopped
    ensures Backlog(TakeMessage(s)) == Backlog(s) + [s.taken] && TakeMessage(s).taken == s.taken + 1
  {
    TakeAppends(s);
    assert s.dispatcher.None? ==> Backlog(s) == s.handled;
  }

  lemma {:induction false} LossFreeStep(s: Chat, e: Event)
    requires LoneInv(s) && !Loses(s, e) && Backlog(s) == Numbers(s.taken)
    ensures Backlog(Step(s, e)) == Numbers(Step(s, e).taken)
  {
    if e.Take? {
      LossFreeTake(s);
    } else {
      TakenStays(s, e);
      OtherStepSame(s, e);
    }
  }

  lemma {:induction false} LossFreeTake(s: Chat)
    requires LoneInv(s) && !Loses(s, Take) && Backlog(s) == Numbers(s.taken)
    ensures Backlog(TakeMessage(s)) == Numbers(TakeMessage(s).taken)
  {
    if s.poll.Ready? && !s.stopped {
      TakeSame(s);
      OneMoreNumber(s.taken);
    }
  }

  lemma {:induction false} OneMoreNumber(n: nat)
    ensures Numbers(n + 1) == Numbers(n) + [n]
  {
  }

  lemma {:induction false} OtherStepSame(s: Chat, e: Event)
    requires LoneInv(s) && !Loses(s, e) && !e.Take?
    ensures Backlog(Step(s, e)) == Backlog(s)
  {
    if e.TrySend? {
      SendSame(s);
    } else if e.Admit? {
      AdmitSame(s, e.worker, e.allowed);
    } else if e.Register? || e.Retain? || e.Cancel? || e.Reactivate? || e.Shutdown? || e.Receive? {
      StepSame(s, e);
    } else {
      WorkerStepSame(s, e.worker, e);
    }
  }

  lemma {:induction false} LossFreeRun(s: Chat, events: seq<Event>)
    requires ShapeInv(s) && LossFree(s, events) && Backlog(s) == Numbers(s.taken)
    ensures Backlog(Run(s, events)) == Numbers(Run(s, events).taken)
    decreases events
  {
    if events != [] {
      LossFreeStep(s, events[0]);
      StepKeepsShape(s, events[0]);
      LossFreeRun(Step(s, events[0]), events[1..]);
    }
  }

  /** The first n messages. */
  function Numbers(n: nat): seq<Message> {
    seq(n, i => i)
  }

  /** While nobody is cancelled, refused or aborted with a message in hand and no queue overflows or
      closes with messages in it, nothing is lost: what is handled and what is pending are together
      all messages taken so far, in order. */
  lemma {:induction false} NothingElseIsLost(events: seq<Event>)
    requires LossFree(NO_WORKERS, events)
    ensures var s := Run(NO_WORKERS, events);
      && s.handled + Pending(s) == Numbers(s.taken)
      && s.handled == Numbers(|s.handled|)
  {
    NoWorkersInv();
    LossFreeRun(NO_WORKERS, events);
    var s := Run(NO_WORKERS, events);
    FrontOfNumbers(s.handled, Pending(s), s.taken);
  }

  lemma {:induction false} FrontOfNumbers(a: seq<Message>, b: seq<Message>, n: nat)
    requires a + b == Numbers(n)
    ensures a == Numbers(|a|)
  {
    assert forall i :: 0 <= i < |a| ==> a[i] == (a + b)[i];
  }

  // ---------- What gets handled ----------

  lemma {:induction false} RunStep(s: Chat, events: seq<Event>)
    requires events != []
    ensures Run(s, events) == Run(Step(s, events[0]), events[1..])
  {
  }

  /** One round of a worker at the top of its loop. */
  function Round(w: nat): seq<Event> {
    [CheckTop(w, true), Receive(w), Admit(w, true), FinishMessage(w)]
  }

  lemma {:induction false} RoundHandlesNext(s: Chat, w: nat)
    requires w < |s.workers| && s.workers[w].phase == AtTop && !s.workers[w].cancelled && s.workers[w].queue != []
    ensures var worker := s.workers[w];
      Run(s, Round(w))
      == s.(handled := s.handled + [worker.queue[0]], workers := s.workers[w := worker.(queue := worker.queue[1..])])
  {
    var worker, e := s.workers[w], Round(w);
    var s1 := Step(s, e[0]);
    assert s1.workers == s.workers[w := worker.(phase := Waiting)];
    var s2 := Step(s1, e[1]);
    assert s2.workers == s.workers[w := worker.(phase := Holding(worker.queue[0]), queue := worker.queue[1..])];
    var s3 := Step(s2, e[2]);
    var s4 := Step(s3, e[3]);
    assert s4.workers == s.workers[w := worker.(queue := worker.queue[1..])];
    RunStep(s, e);
    RunStep(s1, e[1..]);
    RunStep(s2, e[1..][1..]);
    RunStep(s3, e[1..][1..][1..]);
    assert e[1..][1..][1..][1..] == [];
  }

  function Rounds(w: nat, n: nat): seq<Event> {
    if n == 0 then [] else Round(w) + Rounds(w, n - 1)
  }

  lemma {:induction false} RunConcat(s: Chat, a: seq<Event>, b: seq<Event>)
    ensures Run(s, a + b) == Run(Run(s, a), b)
    decreases a
  {
    if a == [] {
      assert a + b == b;
    } else {
      assert (a + b)[1..] == a[1..] + b;
      RunConcat(Step(s, a[0]), a[1..], b);
    }
  }

  /** A worker that is neither cancelled nor refused handles its whole queue, in order. */
  lemma {:induction false} WholeQueueIsHandled(s: Chat, w: nat)
    requires w < |s.workers| && s.workers[w].phase == AtTop && !s.workers[w].cancelled
    ensures Run(s, Rounds(w, |s.workers[w].queue|)) == Emptied(s, w)
    decreases |s.workers[w].queue|
  {
    if s.workers[w].queue != [] {
      RoundHandlesNext(s, w);
      var next := Run(s, Round(w));
      WholeQueueIsHandled(next, w);
      RunConcat(s, Round(w), Rounds(w, |s.workers[w].queue| - 1));
      EmptiedNext(s, next, w);
    } else {
      assert s.workers == s.workers[w := s.workers[w].(queue := [])];
      assert s.handled + [] == s.handled;
    }
  }

  /** The worker's queue handled, and nothing else changed. */
  function Emptied(s: Chat, w: nat): Chat
    requires w < |s.workers|
  {
    s.(handled := s.handled + s.workers[w].queue, workers := s.workers[w := s.workers[w].(queue := [])])
  }

  lemma {:induction false} EmptiedNext(s: Chat, next: Chat, w: nat)
    requires w < |s.workers| && s.workers[w].queue != []
    requires var worker := s.workers[w];
      next == s.(handled := s.handled + [worker.queue[0]],
                 workers := s.workers[w := worker.(queue := worker.queue[1..])])
    ensures Emptied(next, w) == Emptied(s, w)
  {
    var queue := s.workers[w].queue;
    assert s.handled + [queue[0]] + queue[1..] == s.handled + queue;
    assert next.workers[w := next.workers[w].(queue := [])] == s.workers[w := s.workers[w].(queue := [])];
  }

  /** With no worker there, a message spawns one, which is registered, handed the message, and ready
      to handle it. */
  lemma {:induction false} MessageSpawnsWorker(s: Chat)
    requires s.poll.Ready? && !s.stopped && s.dispatcher.None?
    ensures var w := |s.workers|;
      Run(s, [Take, Register, TrySend, Start(w)])
      == s.(workers := s.workers + [Worker(AtTop, [s.taken], false, false)], taken := s.taken + 1,
            registry := Some(w), dispatcher := Some(w))
  {
    var w, e := |s.workers|, [Take, Register, TrySend, Start(|s.workers|)];
    var s1 := Step(s, Take);
    var s2 := Step(s1, Register);
    var s3 := Step(s2, TrySend);
    assert s2.workers[w].queue + [s.taken] == [s.taken];
    assert s3.workers == s.workers + [Worker(Unstarted, [s.taken], false, false)];
    var s4 := Step(s3, Start(w));
    assert s4.workers == s.workers + [Worker(AtTop, [s.taken], false, false)];
    RunStep(s, e);
    RunStep(s1, e[1..]);
    RunStep(s2, e[1..][1..]);
    RunStep(s3, e[1..][1..][1..]);
    assert e[1..][1..][1..][1..] == [];
  }

  /** With the last worker gone, a message is first offered to it and then to a new one. */
  lemma {:induction false} MessageReplacesWorker(s: Chat, v: nat)
    requires s.poll.Ready? && !s.stopped && s.dispatcher == Some(v) && v < |s.workers| && s.workers[v].phase.Gone?
    ensures var w := |s.workers|;
      Run(s, [Take, TrySend, Register, TrySend])
      == s.(workers := s.workers + [Worker(Unstarted, [s.taken], false, false)], taken := s.taken + 1,
            registry := Some(w), dispatcher := Some(w))
  {
    var e := [Take, TrySend, Register, TrySend];
    var s1 := Step(s, Take);
    var s2 := Step(s1, TrySend);
    var s3 := Step(s2, Register);
    var s4 := Step(s3, TrySend);
    assert s3.workers[|s.workers|].queue + [s.taken] == [s.taken];
    assert s4.workers == s.workers + [Worker(Unstarted, [s.taken], false, false)];
    RunStep(s, e);
    RunStep(s1, e[1..]);
    RunStep(s2, e[1..][1..]);
    RunStep(s3, e[1..][1..][1..]);
    assert e[1..][1..][1..][1..] == [];
  }

  /** A worker that is gone is forgotten when the poll loop is ready. A shutdown cancels and aborts the
      current worker and no message is taken any more. Reactivating undoes the cancelling, not the
      aborting. */
  lemma {:induction false} LoopSteps(s: Chat, w: nat)
    requires s.poll.Ready? && s.dispatcher == Some(w) && w < |s.workers|
    ensures s.workers[w].phase.Gone? ==>
      Step(s, Retain) == s.(dispatcher := None, registry := if s.registry == Some(w) then None else s.registry)
    ensures !s.workers[w].phase.Gone? ==> Step(s, Retain) == s
    ensures var t := Step(s, Shutdown);
      && t.workers == s.workers[w := s.workers[w].(cancelled := true, aborted := true)]
      && t.registry != Some(w) && Step(t, Take) == t
    ensures s.registry == Some(w) ==>
      Step(s, Reactivate).workers == s.workers[w := s.workers[w].(cancelled := false)]
  {
  }

  predicate Leaves(phase: Phase) {
    phase.Leaving? || phase.Unregistered? || phase.Gone?
  }

  /** How a worker comes to leave: cancelled or refused at the top of its loop, idle, or aborted
      anywhere; and how it goes: the registration first, if it is still its own, then the queue. */
  lemma {:induction false} WaysToLeave(s: Chat, w: nat, allowed: bool)
    requires w < |s.workers|
    ensures var worker := s.workers[w];
      && (worker.phase.AtTop? && (worker.cancelled || !allowed) ==>
            Step(s, CheckTop(w, allowed)) == SetPhase(s, w, Leaving))
      && (worker.phase.Waiting? ==> Step(s, IdleOut(w)) == SetPhase(s, w, Leaving))
      && (worker.aborted && worker.phase.Unstarted? ==> Step(s, AbortTakes(w)) == SetPhase(s, w, Unregistered))
      && (worker.aborted && !worker.phase.Unstarted? && !Leaves(worker.phase) ==>
            Step(s, AbortTakes(w)) == SetPhase(s, w, Leaving))
      && (worker.phase.Leaving? ==>
            var t := Step(Step(s, DropGuard(w)), DropReceiver(w));
            && t.workers == s.workers[w := worker.(phase := Gone)]
            && t.registry == if s.registry == Some(w) then None else s.registry)
  {
    var worker := s.workers[w];
    if worker.phase.Leaving? {
      var t := Step(Step(s, DropGuard(w)), DropReceiver(w));
      assert t.workers == s.workers[w := worker.(phase := Gone)];
    }
  }

  lemma {:induction false} LeavingStep(s: Chat, w: nat, e: Event)
    requires w < |s.workers| && Leaves(s.workers[w].phase)
    ensures var t := Step(s, e); w < |t.workers| && Leaves(t.workers[w].phase)
  {
  }

  /** A worker that leaves does not come back, so it handles nothing more. */
  lemma {:induction false} LeavingIsFinal(s: Chat, w: nat, events: seq<Event>)
    requires w < |s.workers| && Leaves(s.workers[w].phase)
    ensures var t := Run(s, events); w < |t.workers| && Leaves(t.workers[w].phase)
    decreases events
  {
    if events != [] {
      LeavingStep(s, w, events[0]);
      LeavingIsFinal(Step(s, events[0]), w, events[1..]);
    }
  }

  /** The worker has not begun to unregister, and the program is not shutting down. */
  predicate Running(s: Chat, w: nat) {
    !s.stopped && w < |s.workers| && !s.workers[w].phase.Unregistered? && !s.workers[w].phase.Gone?
  }

  lemma {:induction false} RegisteredExactly(s: Chat, w: nat)
    requires ShapeInv(s) && Running(s, w)
    ensures s.registry == Some(w) <==> !s.poll.Registering?
  {
  }

  lemma {:induction false} CancelReaches(s: Chat, w: nat, abort: bool)
    requires w < |s.workers| && (s.registry.Some? ==> s.registry.value < |s.workers|)
    ensures var cancelled := Step(s, Cancel(abort));
      && |cancelled.workers| == |s.workers|
      && cancelled.workers[w] == (if s.registry != Some(w) then s.workers[w]
                                  else s.workers[w].(cancelled := true, aborted := s.workers[w].aborted || abort))
  {
  }

  /** Nothing a finished or finishing worker does unregisters the one that replaced it. Until it
      unregisters itself a running worker is registered, and so reached by whoever cancels the chat,
      at every moment but one: while the poll loop has spawned it and not yet registered it. */
  lemma {:induction false} RunningWorkerIsReached(events: seq<Event>, w: nat, abort: bool)
    requires Running(Run(NO_WORKERS, events), w)
    ensures var s := Run(NO_WORKERS, events);
      var cancelled := Step(s, Cancel(abort));
      && (s.registry == Some(w) <==> !s.poll.Registering?)
      && |cancelled.workers| == |s.workers|
      && cancelled.workers[w] == (if s.poll.Registering? then s.workers[w]
                                  else s.workers[w].(cancelled := true, aborted := s.workers[w].aborted || abort))
  {
    NoWorkersInv();
    RunKeepsInv(NO_WORKERS, events);
    var s := Run(NO_WORKERS, events);
    RegisteredExactly(s, w);
    CancelReaches(s, w, abort);
  }
}
