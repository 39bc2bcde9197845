/** Room settings in memory and on disk: one transaction at a time, one ordered writer that may
    fail, and callers that may be dropped while they wait for it. */
module Persistence {
  import opened Prelude
  import opened Rooms

  type Snapshot = map<int, RoomSettings>

  /** A missing room counts as one with default settings. */
  function Setting(rooms: Snapshot, chat: int): RoomSettings {
    if chat in rooms then rooms[chat] else DEFAULT_SETTINGS
  }

  ghost predicate Agree(a: Snapshot, b: Snapshot) {
    forall chat :: Setting(a, chat) == Setting(b, chat)
  }

  datatype Write = Write(snapshot: Snapshot, abandoned: bool)

  /** The holder of the transaction lock; `reply` is the writer's answer once it has one. */
  datatype Transaction =
    | Idle
    | Mutating(chat: int, before: Option<RoomSettings>, reply: Option<bool>)
    | Removing(chat: int, reply: Option<bool>)

  /** `base` is what memory held before the first queued snapshot; `taken` are all snapshots ever
      queued, `landed` the positions of those that reached the disk and `kept` the position of the
      last one written or given up without being rolled back; `diverged` records a lost write that
      memory did not follow, until a later write succeeds. */
  datatype Store = Store(
    mem: Snapshot, disk: Snapshot, queue: seq<Write>, tx: Transaction, stopped: bool,
    base: Snapshot, taken: seq<Snapshot>, landed: seq<int>, kept: int, diverged: bool)

  function Loaded(disk: Snapshot): Store {
    Store(disk, disk, [], Idle, false, disk, [], [], -1, false)
  }

  datatype Event =
    | Touch(chat: int)
    | BeginMutate(chat: int, after: RoomSettings)
    | BeginRemove(chat: int)
    | WriteNext(ok: bool)
    | Resume
    | Abort
    | Stop

  function Undo(mem: Snapshot, chat: int, before: Option<RoomSettings>): Snapshot {
    if before.None? then mem - {chat}
    else if chat in mem then mem[chat := before.value]
    else mem
  }

  function Enqueue(s: Store, mem: Snapshot, tx: Transaction): Store {
    s.(mem := mem, tx := tx, queue := s.queue + [Write(mem, false)], taken := s.taken + [mem])
  }

  function WriteHead(s: Store, ok: bool): Store
    requires s.queue != []
  {
    var head := s.queue[0];
    var rolledBack := !ok && !head.abandoned && s.tx.Mutating?;
    s.(queue := s.queue[1..],
       tx := if head.abandoned || s.tx.Idle? then s.tx else s.tx.(reply := Some(ok)),
       disk := if ok then head.snapshot else s.disk,
       landed := if ok then s.landed + [|s.taken| - |s.queue|] else s.landed,
       base := if rolledBack then s.base else head.snapshot,
       kept := if rolledBack then s.kept else |s.taken| - |s.queue|,
       diverged := !ok && (s.diverged || !rolledBack))
  }

  function AbortCaller(s: Store): Store {
    if s.tx.Idle? then s
    else if s.tx.reply.None? then
      s.(tx := Idle,
         queue := if s.queue == [] then []
                  else s.queue[..|s.queue| - 1] + [s.queue[|s.queue| - 1].(abandoned := true)])
    else if s.tx.Mutating? && s.tx.reply == Some(false) then
      s.(tx := Idle, base := s.mem, kept := |s.taken| - 1, diverged := true)
    else s.(tx := Idle)
  }

  function Step(s: Store, e: Event): Store {
    match e
    case Touch(chat) => s.(mem := s.mem[chat := Setting(s.mem, chat)])
    case BeginMutate(chat, after) =>
      if !s.tx.Idle? then s
      else Enqueue(s, s.mem[chat := after], Mutating(chat, if chat in s.mem then Some(s.mem[chat]) else None, None))
    case BeginRemove(chat) =>
      if !s.tx.Idle? then s else Enqueue(s, s.mem - {chat}, Removing(chat, None))
    case WriteNext(ok) => if s.queue == [] then s else WriteHead(s, ok && !s.stopped)
    case Resume =>
      if s.tx.Idle? || s.tx.reply.None? then s
      else if s.tx.Mutating? && s.tx.reply == Some(false) then
        s.(mem := Undo(s.mem, s.tx.chat, s.tx.before), tx := Idle)
      else s.(tx := Idle)
    case Abort => AbortCaller(s)
    case Stop => s.(stopped := true)
  }

  function Run(s: Store, events: seq<Event>): Store
    decreases events
  {
    if events == [] then s else Run(Step(s, events[0]), events[1..])
  }

  // ---------- The program ----------

  class RoomStore {
    var mem: Snapshot
    var disk: Snapshot
    var queue: seq<Write>
    var tx: Transaction
    var stopped: bool
    ghost var base: Snapshot
    ghost var taken: seq<Snapshot>
    ghost var landed: seq<int>
    ghost var kept: int
    ghost var diverged: bool

    ghost function View(): Store
      reads this
    {
      Store(mem, disk, queue, tx, stopped, base, taken, landed, kept, diverged)
    }

    constructor (settings: Snapshot)
      ensures View() == Loaded(settings)
    {
      mem, disk, queue, tx, stopped := settings, settings, [], Idle, false;
      base, taken, landed, kept, diverged := settings, [], [], -1, false;
    }

    /** Any handler that looks a room up outside a transaction creates it with defaults. */
    method GetOrDefault(chat: int) returns (settings: RoomSettings)
      modifies this`mem
      ensures View() == Step(old(View()), Touch(chat))
      ensures chat in mem && settings == mem[chat]
    {
      if chat !in mem {
        mem := mem[chat := DEFAULT_SETTINGS];
      }
      settings := mem[chat];
    }

    method SaveRooms()
      modifies this`queue, this`taken
      ensures queue == old(queue) + [Write(mem, false)] && taken == old(taken) + [mem]
    {
      queue := queue + [Write(mem, false)];
      taken := taken + [mem];
    }

    /** Up to the point where the caller waits for the writer. */
    method MutateRoom(chat: int, mutate: RoomSettings -> RoomSettings)
      requires tx.Idle?
      modifies this
      ensures View() == Step(old(View()), BeginMutate(chat, mutate(Setting(old(mem), chat))))
    {
      var before := if chat in mem then Some(mem[chat]) else None;
      mem := mem[chat := mutate(Setting(mem, chat))];
      SaveRooms();
      tx := Mutating(chat, before, None);
    }

    method RemoveRoom(chat: int)
      requires tx.Idle?
      modifies this
      ensures View() == Step(old(View()), BeginRemove(chat))
    {
      mem := mem - {chat};
      SaveRooms();
      tx := Removing(chat, None);
    }

    /** The caller continues with the writer's answer, rolling settings back if it was a failure. */
    method ResumeCaller() returns (ok: bool)
      requires !tx.Idle? && tx.reply.Some?
      modifies this
      ensures View() == Step(old(View()), Resume) && ok == old(tx.reply.value)
    {
      ok := tx.reply.value;
      if !ok && tx.Mutating? {
        if tx.before.None? {
          mem := mem - {tx.chat};
        } else if tx.chat in mem {
          mem := mem[tx.chat := tx.before.value];
        }
      }
      tx := Idle;
    }

    /** The caller is dropped: the lock is released, a queued write stays queued. */
    method DropCaller()
      modifies this
      ensures View() == Step(old(View()), Abort)
    {
      if !tx.Idle? {
        if tx.reply.None? {
          if queue != [] {
            var last := |queue| - 1;
            queue := queue[..last] + [queue[last].(abandoned := true)];
          }
        } else if tx.Mutating? && !tx.reply.value {
          base, kept, diverged := mem, |taken| - 1, true;
        }
        tx := Idle;
      }
    }

    method WriteOne(ok: bool)
      requires queue != []
      modifies this
      ensures View() == WriteHead(old(View()), ok && !old(stopped))
    {
      var head := queue[0];
      var published := ok && !stopped;
      ghost var rolledBack := !published && !head.abandoned && tx.Mutating?;
      if published {
        disk := head.snapshot;
        landed := landed + [|taken| - |queue|];
      }
      base := if rolledBack then base else head.snapshot;
      kept := if rolledBack then kept else |taken| - |queue|;
      diverged := !published && (diverged || !rolledBack);
      queue := queue[1..];
      if !head.abandoned && !tx.Idle? {
        tx := tx.(reply := Some(published));
      }
    }

    /** The writer thread: takes queued snapshots in order until the channel is empty. */
    method Drain(outcomes: seq<bool>)
      requires |outcomes| >= |queue|
      modifies this
      ensures queue == []
      ensures View() == Run(old(View()), Writes(outcomes[..|old(queue)|]))
    {
      var i := 0;
      ghost var n := |queue|;
      ghost var start := View();
      while queue != []
        invariant i + |queue| == n
        invariant View() == Run(start, Writes(outcomes[..i]))
        decreases |queue|
      {
        ghost var before := View();
        WriteOne(outcomes[i]);
        RunSnoc(start, Writes(outcomes[..i]), WriteNext(outcomes[i]));
        assert Writes(outcomes[..i + 1]) == Writes(outcomes[..i]) + [WriteNext(outcomes[i])];
        i := i + 1;
      }
    }
  }

  function Writes(outcomes: seq<bool>): seq<Event> {
    seq(|outcomes|, i requires 0 <= i < |outcomes| => WriteNext(outcomes[i]))
  }

  lemma {:induction false} RunSnoc(s: Store, events: seq<Event>, last: Event)
    ensures Run(s, events + [last]) == Step(Run(s, events), last)
    decreases events
  {
    if events == [] {
      assert [last][1..] == [];
      assert events + [last] == [last];
    } else {
      assert (events + [last])[1..] == events[1..] + [last];
      RunSnoc(Step(s, events[0]), events[1..], last);
    }
  }

  // ---------- Invariant ----------

  /** What memory held once every snapshot in the queue had been taken. */
  function Settled(base: Snapshot, queue: seq<Write>): Snapshot {
    if queue == [] then base else queue[|queue| - 1].snapshot
  }

  ghost predicate AllAbandoned(queue: seq<Write>) {
    forall i :: 0 <= i < |queue| ==> queue[i].abandoned
  }

  ghost predicate QueueInv(s: Store) {
    if s.tx.Idle? || s.tx.reply.Some? then
      AllAbandoned(s.queue) && (!s.tx.Idle? ==> s.queue == [])
    else
      && s.queue != []
      && AllAbandoned(s.queue[..|s.queue| - 1])
      && !s.queue[|s.queue| - 1].abandoned
  }

  ghost predicate MemoryInv(s: Store) {
    match s.tx
    case Mutating(chat, before, None) =>
      && chat in s.mem
      && s.queue != []
      && Agree(s.mem, Settled(s.base, s.queue))
      && Agree(Undo(s.mem, chat, before), Settled(s.base, s.queue[..|s.queue| - 1]))
    case Mutating(chat, before, Some(false)) => chat in s.mem && Agree(Undo(s.mem, chat, before), s.base)
    case _ => Agree(s.mem, Settled(s.base, s.queue))
  }

  /** The queue holds the snapshots taken last. */
  ghost predicate Queued(queue: seq<Write>, taken: seq<Snapshot>) {
    && |queue| <= |taken|
    && forall i :: 0 <= i < |queue| ==> queue[i].snapshot == taken[|taken| - |queue| + i]
  }

  ghost predicate Increasing(positions: seq<int>, below: int) {
    && (forall i :: 0 <= i < |positions| ==> 0 <= positions[i] < below)
    && (forall i, j :: 0 <= i < j < |positions| ==> positions[i] < positions[j])
  }

  ghost predicate LandedInv(s: Store, initial: Snapshot) {
    && Queued(s.queue, s.taken)
    && Increasing(s.landed, |s.taken| - |s.queue|)
    && s.disk == if s.landed == [] then initial else s.taken[s.landed[|s.landed| - 1]]
  }

  /** The snapshot at a position, the loaded one before all others. */
  function At(initial: Snapshot, taken: seq<Snapshot>, position: int): Snapshot
    requires position < |taken|
  {
    if position < 0 then initial else taken[position]
  }

  ghost predicate KeptInv(s: Store, initial: Snapshot) {
    && s.kept < |s.taken| - |s.queue|
    && Agree(s.base, At(initial, s.taken, s.kept))
    && (s.tx.Mutating? && s.tx.reply == Some(false) ==> s.taken != [] && Agree(s.mem, s.taken[|s.taken| - 1]))
  }

  ghost predicate Inv(s: Store, initial: Snapshot) {
    && QueueInv(s)
    && MemoryInv(s)
    && KeptInv(s, initial)
    && LandedInv(s, initial)
    && (!s.diverged ==> Agree(s.base, s.disk))
  }

  lemma {:induction false} QueuedTail(queue: seq<Write>, taken: seq<Snapshot>)
    requires queue != [] && Queued(queue, taken)
    ensures Queued(queue[1..], taken) && queue[0].snapshot == taken[|taken| - |queue|]
  {
  }

  lemma {:induction false} IncreasingFurther(positions: seq<int>, below: nat, next: nat)
    requires Increasing(positions, below) && next == below + 1
    ensures Increasing(positions, next) && Increasing(positions + [below], next)
  {
  }

  lemma {:induction false} WriteKeepsLanded(s: Store, initial: Snapshot, ok: bool)
    requires LandedInv(s, initial) && s.queue != []
    ensures LandedInv(WriteHead(s, ok), initial)
  {
    var t, at := WriteHead(s, ok), |s.taken| - |s.queue|;
    QueuedTail(s.queue, s.taken);
    IncreasingFurther(s.landed, at, |t.taken| - |t.queue|);
    assert t.landed == if ok then s.landed + [at] else s.landed;
    assert t.disk == if ok then s.taken[at] else s.disk;
  }

  lemma {:induction false} SettledTail(base: Snapshot, queue: seq<Write>)
    requires queue != []
    ensures Settled(queue[0].snapshot, queue[1..]) == Settled(base, queue)
    ensures |queue| > 1 ==>
      && queue[..|queue| - 1][0] == queue[0]
      && queue[1..][..|queue| - 2] == queue[..|queue| - 1][1..]
      && Settled(queue[0].snapshot, queue[1..][..|queue| - 2]) == Settled(base, queue[..|queue| - 1])
  {
  }

  lemma {:induction false} WriteKeepsMemory(s: Store, ok: bool)
    requires QueueInv(s) && MemoryInv(s) && s.queue != []
    ensures MemoryInv(WriteHead(s, ok)) && QueueInv(WriteHead(s, ok))
  {
    SettledTail(s.base, s.queue);
  }

  /** The write of a transaction that waits for its answer is the last in the queue. */
  lemma {:induction false} OwnWriteIsLast(s: Store)
    requires QueueInv(s) && s.queue != []
    ensures s.queue[0].abandoned || (|s.queue| == 1 && !s.tx.Idle? && s.tx.reply.None?)
  {
    if |s.queue| > 1 {
      assert s.queue[..|s.queue| - 1][0] == s.queue[0];
    }
  }

  lemma {:induction false} WriteKeepsKept(s: Store, initial: Snapshot, ok: bool)
    requires QueueInv(s) && MemoryInv(s) && KeptInv(s, initial) && Queued(s.queue, s.taken) && s.queue != []
    ensures KeptInv(WriteHead(s, ok), initial)
  {
    QueuedTail(s.queue, s.taken);
    OwnWriteIsLast(s);
  }

  lemma {:induction false} WriteKeepsInv(s: Store, initial: Snapshot, ok: bool)
    requires Inv(s, initial) && s.queue != []
    ensures Inv(WriteHead(s, ok), initial)
  {
    WriteKeepsLanded(s, initial, ok);
    WriteKeepsMemory(s, ok);
    WriteKeepsKept(s, initial, ok);
  }

  lemma {:induction false} EnqueueKeepsInv(s: Store, initial: Snapshot, mem: Snapshot, tx: Transaction)
    requires Inv(s, initial) && s.tx.Idle? && !tx.Idle? && tx.reply.None?
    requires tx.Mutating? ==> tx.chat in mem && Agree(Undo(mem, tx.chat, tx.before), s.mem)
    ensures Inv(Enqueue(s, mem, tx), initial)
  {
  }

  /** Abandoning a write changes neither the snapshots queued nor what comes before it. */
  lemma {:induction false} AbandonedQueue(s: Store)
    requires QueueInv(s) && !s.tx.Idle? && s.tx.reply.None?
    ensures var queue, last := AbortCaller(s).queue, |s.queue| - 1;
      && |queue| == |s.queue| && AllAbandoned(queue)
      && (forall i :: 0 <= i < |queue| ==> queue[i].snapshot == s.queue[i].snapshot)
  {
    var t, last := AbortCaller(s), |s.queue| - 1;
    assert forall i :: 0 <= i < last ==> t.queue[i] == s.queue[i] == s.queue[..last][i];
  }

  lemma {:induction false} AbandonKeepsInv(s: Store, initial: Snapshot)
    requires Inv(s, initial) && !s.tx.Idle? && s.tx.reply.None?
    ensures Inv(AbortCaller(s), initial)
  {
    AbandonedQueue(s);
    var t := AbortCaller(s);
    assert Queued(t.queue, t.taken);
    assert Settled(t.base, t.queue) == Settled(s.base, s.queue);
  }

  lemma {:induction false} BeginMutateKeepsInv(s: Store, initial: Snapshot, chat: int, after: RoomSettings)
    requires Inv(s, initial) && s.tx.Idle?
    ensures Inv(Step(s, BeginMutate(chat, after)), initial)
  {
    var before := if chat in s.mem then Some(s.mem[chat]) else None;
    EnqueueKeepsInv(s, initial, s.mem[chat := after], Mutating(chat, before, None));
  }

  lemma {:induction false} TouchKeepsInv(s: Store, initial: Snapshot, chat: int)
    requires Inv(s, initial)
    ensures Inv(Step(s, Touch(chat)), initial)
  {
    var t := Step(s, Touch(chat));
    assert Agree(t.mem, s.mem);
    assert QueueInv(t) && LandedInv(t, initial);
    if s.tx.Mutating? && s.tx.reply != Some(true) {
      assert Agree(Undo(t.mem, s.tx.chat, s.tx.before), Undo(s.mem, s.tx.chat, s.tx.before));
    }
  }

  lemma {:induction false} ResumeKeepsInv(s: Store, initial: Snapshot)
    requires Inv(s, initial)
    ensures Inv(Step(s, Resume), initial)
  {
    if !s.tx.Idle? && s.tx.reply.Some? {
      if s.tx.Mutating? && !s.tx.reply.value {
        ReleaseKeepsInv(s, initial, Undo(s.mem, s.tx.chat, s.tx.before));
      } else {
        ReleaseKeepsInv(s, initial, s.mem);
      }
    }
  }

  lemma {:induction false} ReleaseKeepsInv(s: Store, initial: Snapshot, mem: Snapshot)
    requires Inv(s, initial) && s.queue == [] && Agree(mem, s.base)
    ensures Inv(s.(mem := mem, tx := Idle), initial)
  {
  }

  lemma {:induction false} BeginRemoveKeepsInv(s: Store, initial: Snapshot, chat: int)
    requires Inv(s, initial)
    ensures Inv(Step(s, BeginRemove(chat)), initial)
  {
    if s.tx.Idle? {
      EnqueueKeepsInv(s, initial, s.mem - {chat}, Removing(chat, None));
    }
  }

  lemma {:induction false} DropKeepsInv(s: Store, initial: Snapshot)
    requires Inv(s, initial) && s.tx.Mutating? && s.tx.reply == Some(false)
    ensures Inv(AbortCaller(s), initial)
  {
  }

  lemma {:induction false} AbortKeepsInv(s: Store, initial: Snapshot)
    requires Inv(s, initial)
    ensures Inv(Step(s, Abort), initial)
  {
    if !s.tx.Idle? && s.tx.reply.None? {
      AbandonKeepsInv(s, initial);
    } else if s.tx.Mutating? && s.tx.reply == Some(false) {
      DropKeepsInv(s, initial);
    }
  }

  lemma {:induction false} StepKeepsInv(s: Store, initial: Snapshot, e: Event)
    requires Inv(s, initial)
    ensures Inv(Step(s, e), initial)
  {
    match e
    case Touch(chat) => TouchKeepsInv(s, initial, chat);
    case BeginMutate(chat, after) =>
      if s.tx.Idle? {
        BeginMutateKeepsInv(s, initial, chat, after);
      }
    case BeginRemove(chat) => BeginRemoveKeepsInv(s, initial, chat);
    case WriteNext(ok) =>
      if s.queue != [] {
        WriteKeepsInv(s, initial, ok && !s.stopped);
      }
    case Abort => AbortKeepsInv(s, initial);
    case Resume => ResumeKeepsInv(s, initial);
    case Stop =>
  }

  lemma {:induction false} RunKeepsInv(s: Store, initial: Snapshot, events: seq<Event>)
    requires Inv(s, initial)
    ensures Inv(Run(s, events), initial)
    decreases events
  {
    if events != [] {
      StepKeepsInv(s, initial, events[0]);
      RunKeepsInv(Step(s, events[0]), initial, events[1..]);
    }
  }

  lemma {:induction false} LoadedInv(initial: Snapshot)
    ensures Inv(Loaded(initial), initial)
  {
  }

  // ---------- Main results ----------

  /** Whatever callers and the writer do, the disk has only ever held snapshots in the order they
      were taken: the landed positions increase and the last of them is what is on disk. */
  lemma {:induction false} DiskFollowsSnapshots(initial: Snapshot, events: seq<Event>)
    ensures var s := Run(Loaded(initial), events);
      && (forall i :: 0 <= i < |s.landed| ==> 0 <= s.landed[i] < |s.taken|)
      && (forall i, j :: 0 <= i < j < |s.landed| ==> s.landed[i] < s.landed[j])
      && s.disk == if s.landed == [] then initial else s.taken[s.landed[|s.landed| - 1]]
  {
    LoadedInv(initial);
    RunKeepsInv(Loaded(initial), initial, events);
  }

  /** The steps that lose a change memory keeps: a failed write whose caller is gone, a failed
      removal, and a caller dropped between the failure and its rollback. */
  predicate Loses(s: Store, e: Event) {
    match e
    case WriteNext(ok) =>
      s.queue != [] && (!ok || s.stopped) && (s.queue[0].abandoned || !s.tx.Mutating?)
    case Abort => s.tx.Mutating? && s.tx.reply == Some(false)
    case _ => false
  }

  predicate LossFree(s: Store, events: seq<Event>)
    decreases events
  {
    events == [] || (!Loses(s, events[0]) && LossFree(Step(s, events[0]), events[1..]))
  }

  lemma {:induction false} LossFreeKeepsConverged(s: Store, events: seq<Event>)
    requires !s.diverged && LossFree(s, events)
    ensures !Run(s, events).diverged
    decreases events
  {
    if events != [] {
      LossFreeKeepsConverged(Step(s, events[0]), events[1..]);
    }
  }

  ghost predicate Quiescent(s: Store) {
    s.tx.Idle? && s.queue == []
  }

  /** With no transaction and no queued write outstanding, disk and memory agree on every room,
      provided no change was lost since the start or since the last successful write. */
  lemma {:induction false} QuiescentAgreement(initial: Snapshot, before: seq<Event>, after: seq<Event>)
    requires var s := Run(Loaded(initial), before);
      before == [] || (s.queue != [] && !s.stopped)
    requires var s := Run(Loaded(initial), before);
      LossFree(if before == [] then s else Step(s, WriteNext(true)), after)
    ensures var s := Run(Loaded(initial), before);
      var end := Run(if before == [] then s else Step(s, WriteNext(true)), after);
      Quiescent(end) ==> Agree(end.mem, end.disk)
  {
    LoadedInv(initial);
    var s := Run(Loaded(initial), before);
    RunKeepsInv(Loaded(initial), initial, before);
    var t := if before == [] then s else Step(s, WriteNext(true));
    if before != [] {
      StepKeepsInv(s, initial, WriteNext(true));
    }
    LossFreeKeepsConverged(t, after);
    RunKeepsInv(t, initial, after);
  }

  /** In every run, whenever nothing is outstanding, disk and memory agree exactly when the last
      snapshot that was not rolled back agrees with the last one that landed. */
  lemma {:induction false} QuiescentAgreesExactly(initial: Snapshot, events: seq<Event>)
    ensures var s := Run(Loaded(initial), events);
      var landed := if s.landed == [] then -1 else s.landed[|s.landed| - 1];
      && landed < |s.taken| && s.kept < |s.taken|
      && (Quiescent(s) ==>
            (Agree(s.mem, s.disk) <==> Agree(At(initial, s.taken, s.kept), At(initial, s.taken, landed))))
  {
    LoadedInv(initial);
    RunKeepsInv(Loaded(initial), initial, events);
  }

  /** The store once a transaction has begun and the writes queued before its own have landed. */
  function Begun(s: Store, e: Event): Store {
    Run(Step(s, e), Writes(seq(|s.queue|, i => true)))
  }

  lemma {:induction false} EarlierWritesLand(s: Store, own: Write, n: nat)
    requires |s.queue| == n + 1 && s.queue[n] == own && AllAbandoned(s.queue[..n]) && (n > 0 ==> !s.stopped)
    ensures var t := Run(s, Writes(seq(n, i => true)));
      && t.mem == s.mem && t.tx == s.tx && t.queue == [own]
      && t.disk == Settled(s.disk, s.queue[..n])
    decreases n
  {
    if n > 0 {
      var next := Step(s, WriteNext(true));
      assert s.queue[..n][0] == s.queue[0];
      assert next.queue[..n - 1] == s.queue[..n][1..];
      assert Writes(seq(n, i => true))[1..] == Writes(seq(n - 1, i => true));
      EarlierWritesLand(next, own, n - 1);
    }
  }

  /** Before its own write, the disk holds what memory held before the transaction. */
  lemma {:induction false} BegunInAgreement(s: Store, initial: Snapshot, e: Event)
    requires Inv(s, initial) && s.tx.Idle? && (e.BeginMutate? || e.BeginRemove?)
    requires if s.queue == [] then !s.diverged else !s.stopped
    ensures var t, begun := Begun(s, e), Step(s, e);
      t.mem == begun.mem && t.tx == begun.tx && t.queue == [Write(t.mem, false)] && Agree(t.disk, s.mem)
  {
    var begun := Step(s, e);
    assert begun.queue[..|s.queue|] == s.queue;
    EarlierWritesLand(begun, Write(begun.mem, false), |s.queue|);
  }

  /** A removal whose write fails leaves the old settings on disk, and that shows exactly when they
      were not the defaults. The writes queued before it land. */
  lemma {:induction false} FailedRemovalDisagreesExactly(s: Store, initial: Snapshot, chat: int)
    requires Inv(s, initial) && s.tx.Idle? && if s.queue == [] then !s.diverged else !s.stopped
    ensures var t := Step(Step(Begun(s, BeginRemove(chat)), WriteNext(false)), Resume);
      Quiescent(t) && (Agree(t.mem, t.disk) <==> Setting(s.mem, chat) == DEFAULT_SETTINGS)
  {
    BegunInAgreement(s, initial, BeginRemove(chat));
  }

  /** A change whose caller was dropped before its write failed shows exactly when it changed
      anything. The writes queued before it land. */
  lemma {:induction false} AbandonedFailureDisagreesExactly(s: Store, initial: Snapshot, chat: int, after: RoomSettings)
    requires Inv(s, initial) && s.tx.Idle? && if s.queue == [] then !s.diverged else !s.stopped
    ensures var t := Step(Step(Begun(s, BeginMutate(chat, after)), Abort), WriteNext(false));
      Quiescent(t) && (Agree(t.mem, t.disk) <==> after == Setting(s.mem, chat))
  {
    BegunInAgreement(s, initial, BeginMutate(chat, after));
    LoneWriteAbandoned(Begun(s, BeginMutate(chat, after)));
    ChangeShowsExactly(s.mem, Begun(s, BeginMutate(chat, after)).disk, chat, after);
  }

  lemma {:induction false} LoneWriteAbandoned(s: Store)
    requires s.tx.Mutating? && s.tx.reply.None? && s.queue == [Write(s.mem, false)]
    ensures var t := Step(Step(s, Abort), WriteNext(false));
      Quiescent(t) && t.mem == s.mem && t.disk == s.disk
  {
  }

  lemma {:induction false} ChangeShowsExactly(mem: Snapshot, disk: Snapshot, chat: int, after: RoomSettings)
    requires Agree(disk, mem)
    ensures Agree(mem[chat := after], disk) <==> after == Setting(mem, chat)
  {
    assert Setting(disk, chat) == Setting(mem, chat);
  }

  /** A change whose caller was dropped after hearing that its write failed, before the rollback,
      shows under the same condition. */
  lemma {:induction false} DroppedBeforeRollbackDisagreesExactly(
      s: Store, initial: Snapshot, chat: int, after: RoomSettings)
    requires Inv(s, initial) && s.tx.Idle? && if s.queue == [] then !s.diverged else !s.stopped
    ensures var t := Step(Step(Begun(s, BeginMutate(chat, after)), WriteNext(false)), Abort);
      Quiescent(t) && (Agree(t.mem, t.disk) <==> after == Setting(s.mem, chat))
  {
    BegunInAgreement(s, initial, BeginMutate(chat, after));
    ChangeShowsExactly(s.mem, Begun(s, BeginMutate(chat, after)).disk, chat, after);
  }

  // ---------- Removed rooms ----------

  predicate Mentions(e: Event, chat: int) {
    (e.Touch? && e.chat == chat) || (e.BeginMutate? && e.chat == chat)
  }

  /** Memory and every snapshot taken from this position on lack the room, no rollback is due that
      could recreate it, and a removal that was answered as saved is the latest write to land. */
  ghost predicate Gone(s: Store, chat: int, from: nat) {
    && chat !in s.mem
    && (forall i :: from <= i < |s.taken| ==> chat !in s.taken[i])
    && !(s.tx.Mutating? && s.tx.chat == chat)
    && from < |s.taken|
    && (s.tx.Removing? && s.tx.reply == Some(true) ==> LandedSince(s, |s.taken| - 1))
  }

  /** The last write to land took its snapshot at this position or later. */
  predicate LandedSince(s: Store, from: int) {
    s.landed != [] && s.landed[|s.landed| - 1] >= from
  }

  lemma {:induction false} GoneWrite(s: Store, initial: Snapshot, chat: int, from: nat, ok: bool)
    requires Inv(s, initial) && Gone(s, chat, from) && s.queue != []
    ensures Gone(WriteHead(s, ok), chat, from)
  {
    OwnWriteIsLast(s);
  }

  lemma {:induction false} GoneAbort(s: Store, chat: int, from: nat)
    requires Gone(s, chat, from)
    ensures Gone(AbortCaller(s), chat, from)
  {
  }

  lemma {:induction false} GoneResume(s: Store, chat: int, from: nat)
    requires Gone(s, chat, from)
    ensures Gone(Step(s, Resume), chat, from)
  {
  }

  lemma {:induction false} GoneBegin(s: Store, chat: int, from: nat, e: Event)
    requires Gone(s, chat, from) && !Mentions(e, chat) && (e.BeginMutate? || e.BeginRemove?)
    ensures Gone(Step(s, e), chat, from)
  {
  }

  lemma {:induction false} GoneStep(s: Store, initial: Snapshot, chat: int, from: nat, e: Event)
    requires Inv(s, initial) && Gone(s, chat, from) && !Mentions(e, chat)
    ensures Gone(Step(s, e), chat, from)
  {
    match e
    case WriteNext(ok) =>
      if s.queue != [] {
        GoneWrite(s, initial, chat, from, ok && !s.stopped);
      }
    case Abort => GoneAbort(s, chat, from);
    case Resume => GoneResume(s, chat, from);
    case BeginMutate(other, after) => GoneBegin(s, chat, from, e);
    case BeginRemove(other) => GoneBegin(s, chat, from, e);
    case Touch(other) =>
    case Stop =>
  }

  lemma {:induction false} GoneRun(s: Store, initial: Snapshot, chat: int, from: nat, events: seq<Event>)
    requires Inv(s, initial) && Gone(s, chat, from) && forall e :: e in events ==> !Mentions(e, chat)
    ensures var end := Run(s, events);
      && Inv(end, initial) && Gone(end, chat, from)
      && (LandedSince(s, from) ==> LandedSince(end, from))
    decreases events
  {
    if events != [] {
      assert events[0] in events;
      GoneStep(s, initial, chat, from, events[0]);
      StepKeepsInv(s, initial, events[0]);
      LandedStep(s, initial, events[0], from);
      GoneRun(Step(s, events[0]), initial, chat, from, events[1..]);
    }
  }

  lemma {:induction false} LandedStep(s: Store, initial: Snapshot, e: Event, from: nat)
    requires Inv(s, initial)
    ensures LandedSince(s, from) ==> LandedSince(Step(s, e), from)
  {
  }

  lemma {:induction false} BeginRemoveGone(s: Store, chat: int)
    requires s.tx.Idle?
    ensures Gone(Step(s, BeginRemove(chat)), chat, |s.taken|)
  {
  }

  /** From any reachable state with the lock free, whatever happens after a removal has begun, short
      of the chat being used again: memory never gets the room back, and the disk is without it as
      soon as, and for as long as, the last write to land is the removal's own or a later one. */
  lemma {:induction false} RemovalLands(s: Store, initial: Snapshot, chat: int, events: seq<Event>)
    requires Inv(s, initial) && s.tx.Idle? && forall e :: e in events ==> !Mentions(e, chat)
    ensures var end := Run(Step(s, BeginRemove(chat)), events);
      chat !in end.mem && (LandedSince(end, |s.taken|) ==> chat !in end.disk)
  {
    BeginRemoveKeepsInv(s, initial, chat);
    BeginRemoveGone(s, chat);
    GoneRun(Step(s, BeginRemove(chat)), initial, chat, |s.taken|, events);
    GoneDisk(Run(Step(s, BeginRemove(chat)), events), initial, chat, |s.taken|);
  }

  lemma {:induction false} GoneDisk(s: Store, initial: Snapshot, chat: int, from: nat)
    requires LandedInv(s, initial) && Gone(s, chat, from)
    ensures LandedSince(s, from) ==> chat !in s.disk
  {
  }

  /** If the remover is told, after whatever wait, that the removal is saved, then nothing later, no
      older write, failure, rollback or dropped caller, brings the room back to memory or to disk
      until the chat is used again. */
  lemma {:induction false} DeniedRoomStaysGone(
      s: Store, initial: Snapshot, chat: int, waiting: seq<Event>, later: seq<Event>)
    requires Inv(s, initial) && s.tx.Idle?
    requires forall e :: e in waiting || e in later ==> !Mentions(e, chat)
    ensures var told := Run(Step(s, BeginRemove(chat)), waiting);
      var end := Run(told, later);
      chat !in end.mem && (told.tx == Removing(chat, Some(true)) ==> chat !in end.disk)
  {
    BeginRemoveKeepsInv(s, initial, chat);
    BeginRemoveGone(s, chat);
    var told := Run(Step(s, BeginRemove(chat)), waiting);
    GoneRun(Step(s, BeginRemove(chat)), initial, chat, |s.taken|, waiting);
    GoneRun(told, initial, chat, |s.taken|, later);
    GoneDisk(Run(told, later), initial, chat, |s.taken|);
  }
}
