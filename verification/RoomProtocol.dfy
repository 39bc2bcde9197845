/** Provider turns in flight against one chat's room, interleaved with everything that may
    change the room while they are away. */
module RoomProtocol {
  import opened Prelude
  import opened JsonSize
  import opened Rooms

  /** A turn waiting for its provider. `startEpoch` is the unwrapped form of `generation`. */
  datatype Flight = Flight(
    format: WireFormat, generation: nat, startEpoch: nat, rollback: Option<SavedContext>, cancelled: bool)

  datatype Request = Request(format: WireFormat, history: seq<Item>)

  /** `next` numbers the turns; `resetAt` is its value at the latest reset; `sent` lists every
      request ever built. Flights survive the removal of the room they began in. */
  datatype State = State(
    room: Option<RoomView>, flights: map<nat, Flight>, next: nat, resetAt: nat, sent: seq<Request>)

  const INIT := State(None, map[], 0, 0, [])

  datatype ChangeKind = KeepsHistory | ResetsHistory | ResetsModelContext

  datatype Event =
    | Begin(format: WireFormat)
    | Succeed(serial: nat, bodies: seq<Json>)
    | Fail(serial: nat)
    | Change(settings: RoomSettings, kind: ChangeKind)
    | RollBackSettings(settings: RoomSettings)
    | NewChat
    | TerminalReset
    | Deny

  function RequestHistory(room: RoomView): seq<Item> {
    match room.settings.mode
    case Chat => room.History()
    case Message => []
  }

  function Produced(bodies: seq<Json>, format: WireFormat, serial: nat): Turn {
    seq(|bodies|, i requires 0 <= i < |bodies| => Item(bodies[i], format, serial))
  }

  function BeginTurn(s: State, format: WireFormat): State {
    var before := s.room.GetOr(NEW_ROOM);
    var room := before.Begin(format);
    var saved := if before.wireFormat == Some(format) then None
                 else Some(SavedContext(before.wireFormat, before.log));
    s.(room := Some(room),
       flights := s.flights[s.next := Flight(format, room.Generation(), room.epoch, saved, false)],
       next := s.next + 1,
       sent := s.sent + [Request(format, RequestHistory(room))])
  }

  /** The success handler looks at the cancellation flag; the failure handler does not. */
  function Land(s: State, serial: nat, bodies: Option<seq<Json>>): State {
    if serial !in s.flights then s
    else
      var flight := s.flights[serial];
      var landed := s.(flights := s.flights - {serial});
      if s.room.None? then landed
      else if bodies.None? then
        landed.(room := Some(s.room.value.Restore(flight.generation, flight.rollback)))
      else if flight.cancelled then landed
      else
        landed.(room := Some(s.room.value.Commit(
                               flight.generation, flight.format, Produced(bodies.value, flight.format, serial))))
  }

  function ChangeRoom(s: State, settings: RoomSettings, kind: ChangeKind): State {
    var room := s.room.GetOr(NEW_ROOM).(settings := settings);
    match kind
    case KeepsHistory => s.(room := Some(room))
    case ResetsHistory => s.(room := Some(room.Reset()), resetAt := s.next)
    case ResetsModelContext => s.(room := Some(room.(wireFormat := None).Reset()), resetAt := s.next)
  }

  function Cancelled(flights: map<nat, Flight>): map<nat, Flight> {
    map k | k in flights :: flights[k].(cancelled := true)
  }

  function Step(s: State, e: Event): State {
    match e
    case Begin(format) => BeginTurn(s, format)
    case Succeed(serial, bodies) => Land(s, serial, Some(bodies))
    case Fail(serial) => Land(s, serial, None)
    case Change(settings, kind) => ChangeRoom(s, settings, kind)
    case RollBackSettings(settings) =>
      if s.room.None? then s else s.(room := Some(s.room.value.(settings := settings)))
    case NewChat => s.(room := Some(s.room.GetOr(NEW_ROOM).Reset()), resetAt := s.next)
    case TerminalReset =>
      if s.room.None? then s else s.(room := Some(s.room.value.Reset()), resetAt := s.next)
    case Deny => s.(room := None, flights := Cancelled(s.flights), resetAt := s.next)
  }

  function Run(s: State, events: seq<Event>): State
    decreases events
  {
    if events == [] then s else Run(Step(s, events[0]), events[1..])
  }

  // ---------- The program ----------

  /** Begins a turn in the room and builds its request. */
  method PrepareChatRequest(room: RoomState, format: WireFormat)
      returns (request: Request, generation: nat, rollback: Option<FailedTurnRollback>)
    requires room.Valid()
    modifies room
    ensures room.Valid() && room.View() == old(room.View()).Begin(format)
    ensures request == Request(format, if room.settings.mode == Chat then room.history else [])
    ensures generation == room.generation
    ensures Holds(rollback, if old(room.wireFormat) == Some(format) then None
                            else Some(SavedContext(old(room.wireFormat), old(room.log))))
  {
    var start := room.BeginTurn(format);
    var history := match room.settings.mode case Chat => room.history case Message => [];
    request := Request(format, history);
    generation, rollback := room.generation, start.rollback;
  }

  /** Fewer than 2^64 generations passed since the turn began. */
  predicate Recent(s: State, serial: nat) {
    s.room.Some? && serial in s.flights ==> s.room.value.epoch < s.flights[serial].startEpoch + GENERATIONS
  }

  // ---------- Wire formats, in every run ----------

  ghost predicate Pure(log: seq<Turn>, format: Option<WireFormat>) {
    forall t, i :: 0 <= t < |log| && 0 <= i < |log[t]| ==> format == Some(log[t][i].format)
  }

  ghost predicate PureItems(items: seq<Item>, format: Option<WireFormat>) {
    forall i :: 0 <= i < |items| ==> format == Some(items[i].format)
  }

  ghost predicate RequestsPure(sent: seq<Request>) {
    forall r :: 0 <= r < |sent| ==> PureItems(sent[r].history, Some(sent[r].format))
  }

  ghost predicate SavedPure(flight: Flight) {
    flight.rollback.Some? ==> Pure(flight.rollback.value.log, flight.rollback.value.wireFormat)
  }

  ghost predicate FormatInv(s: State) {
    && (s.room.Some? ==> Pure(s.room.value.log, s.room.value.wireFormat))
    && (forall k :: k in s.flights ==> SavedPure(s.flights[k]))
    && RequestsPure(s.sent)
  }

  lemma {:induction false} FlattenPure(log: seq<Turn>, format: Option<WireFormat>)
    requires Pure(log, format)
    ensures PureItems(Flatten(log), format)
  {
    if log != [] {
      assert forall i :: 0 <= i < |log[0]| ==> format == Some(log[0][i].format);
      FlattenPure(log[1..], format);
    }
  }

  lemma {:induction false} HistoryPure(room: RoomView)
    requires Pure(room.log, room.wireFormat)
    ensures PureItems(room.History(), room.wireFormat)
  {
    WindowIsLongestFittingSuffix(room.log, 0);
    FlattenPure(Window(room.log), room.wireFormat);
  }

  lemma {:induction false} StepKeepsFormats(s: State, e: Event)
    requires FormatInv(s)
    ensures FormatInv(Step(s, e))
  {
    if e.Begin? {
      var t := BeginTurn(s, e.format);
      HistoryPure(t.room.value);
      assert forall r :: 0 <= r < |s.sent| ==> t.sent[r] == s.sent[r];
    }
  }

  lemma {:induction false} RunKeepsFormats(s: State, events: seq<Event>)
    requires FormatInv(s)
    ensures FormatInv(Run(s, events))
    decreases events
  {
    if events != [] {
      StepKeepsFormats(s, events[0]);
      RunKeepsFormats(Step(s, events[0]), events[1..]);
    }
  }

  // ---------- Generations, in every run ----------

  /** A turn begun in the room's current epoch finds it in its own wire format and not reset since. */
  ghost predicate EpochOf(room: RoomView, flight: Flight, serial: nat, resetAt: nat) {
    && flight.startEpoch <= room.epoch
    && flight.generation == flight.startEpoch % GENERATIONS
    && (flight.startEpoch == room.epoch ==> room.wireFormat == Some(flight.format) && resetAt <= serial)
  }

  ghost predicate EpochInv(s: State) {
    && s.resetAt <= s.next
    && forall k :: k in s.flights && !s.flights[k].cancelled ==>
         s.room.Some? && EpochOf(s.room.value, s.flights[k], k, s.resetAt)
  }

  lemma {:induction false} StepKeepsEpochs(s: State, e: Event)
    requires EpochInv(s)
    ensures EpochInv(Step(s, e))
  {
    var t := Step(s, e);
    forall k | k in t.flights && !t.flights[k].cancelled
      ensures t.room.Some? && EpochOf(t.room.value, t.flights[k], k, t.resetAt)
    {
      assert k in s.flights && t.flights[k] == s.flights[k] ==> EpochOf(s.room.value, s.flights[k], k, s.resetAt);
    }
  }

  lemma {:induction false} RunKeepsEpochs(s: State, events: seq<Event>)
    requires EpochInv(s)
    ensures EpochInv(Run(s, events))
    decreases events
  {
    if events != [] {
      StepKeepsEpochs(s, events[0]);
      RunKeepsEpochs(Step(s, events[0]), events[1..]);
    }
  }

  lemma {:induction false} SameGeneration(a: nat, b: nat)
    requires a <= b < a + GENERATIONS && a % GENERATIONS == b % GENERATIONS
    ensures a == b
  {
  }

  // ---------- Resets ----------

  /** Every item of the turns comes from a turn numbered in [since, until). */
  ghost predicate Begun(turns: seq<Turn>, since: nat, until: nat) {
    forall t, i :: 0 <= t < |turns| && 0 <= i < |turns[t]| ==> since <= turns[t][i].serial < until
  }

  ghost predicate BegunItems(items: seq<Item>, since: nat, until: nat) {
    forall i :: 0 <= i < |items| ==> since <= items[i].serial < until
  }

  /** The history holds only items of turns begun after the latest reset. */
  ghost predicate Fresh(s: State) {
    s.room.Some? ==> BegunItems(s.room.value.History(), s.resetAt, s.next)
  }

  /** A turn begun before the latest reset still finds its generation, and has something to write:
      a produced turn that the room can keep, or a token whose history is not empty. */
  predicate BringsBack(s: State, e: Event) {
    && (e.Succeed? || e.Fail?) && s.room.Some? && e.serial in s.flights
    && e.serial < s.resetAt
    && s.flights[e.serial].generation == s.room.value.Generation()
    && if e.Fail? then HoldsItems(s.flights[e.serial])
       else !s.flights[e.serial].cancelled && e.bodies != []
            && Fits([Produced(e.bodies, s.flights[e.serial].format, e.serial)])
  }

  predicate HoldsItems(flight: Flight) {
    flight.rollback.Some? && Flatten(Window(flight.rollback.value.log)) != []
  }

  ghost predicate AlwaysFresh(s: State, events: seq<Event>)
    decreases events
  {
    Fresh(s) && (events == [] || AlwaysFresh(Step(s, events[0]), events[1..]))
  }

  predicate NeverBringsBack(s: State, events: seq<Event>)
    decreases events
  {
    events == [] || (!BringsBack(s, events[0]) && NeverBringsBack(Step(s, events[0]), events[1..]))
  }

  /** What a flight set aside was begun before it, and after the latest reset if the flight was. */
  ghost predicate SavedSince(flight: Flight, serial: nat, resetAt: nat) {
    flight.rollback.Some? ==>
      Begun(Window(flight.rollback.value.log), if resetAt <= serial then resetAt else 0, serial)
  }

  ghost predicate SinceInv(s: State) {
    && s.resetAt <= s.next
    && (s.room.Some? ==> Begun(Window(s.room.value.log), s.resetAt, s.next))
    && forall k :: k in s.flights ==>
         && k < s.next
         && (s.flights[k].cancelled ==> k < s.resetAt)
         && SavedSince(s.flights[k], k, s.resetAt)
  }

  lemma {:induction false} FlattenBegun(turns: seq<Turn>, since: nat, until: nat)
    requires Begun(turns, since, until)
    ensures BegunItems(Flatten(turns), since, until)
  {
    if turns != [] {
      assert forall i :: 0 <= i < |turns[0]| ==> turns[0][i].serial < until;
      FlattenBegun(turns[1..], since, until);
    }
  }

  lemma {:induction false} NothingBegun(turns: seq<Turn>, since: nat, until: nat)
    requires Flatten(turns) == []
    ensures Begun(turns, since, until)
  {
    if turns != [] {
      NothingBegun(turns[1..], since, until);
      assert forall t :: 0 < t < |turns| ==> turns[t] == turns[1..][t - 1];
    }
  }

  lemma {:induction false} SinceIsFresh(s: State)
    requires SinceInv(s)
    ensures Fresh(s)
  {
    if s.room.Some? {
      FlattenBegun(Window(s.room.value.log), s.resetAt, s.next);
    }
  }

  /** Adding a turn keeps the window's items, or drops some. */
  lemma {:induction false} AppendBegun(log: seq<Turn>, turn: Turn, since: nat, until: nat)
    requires Begun(Window(log), since, until)
    requires forall i :: 0 <= i < |turn| ==> since <= turn[i].serial < until
    ensures Begun(Window(log + [turn]), since, until)
  {
    WindowIsIncremental(log, turn);
    WindowIsLongestFittingSuffix(Window(log) + [turn], 0);
  }

  lemma {:induction false} LastTurnFits(front: seq<Turn>, turn: Turn)
    requires Fits(front + [turn])
    ensures Fits([turn])
  {
    TrueTotalAppend(front, turn);
    assert [turn][1..] == [];
    assert TrueTotal([turn]) == TrueTurnBytes(turn);
  }

  /** A turn too large to be kept empties the window. */
  lemma {:induction false} TooLarge(log: seq<Turn>, turn: Turn)
    ensures Window(log + [turn]) != [] ==> Fits([turn])
  {
    WindowIsLongestFittingSuffix(log + [turn], 0);
    var window := Window(log + [turn]);
    if window != [] {
      assert window == window[..|window| - 1] + [turn];
      LastTurnFits(window[..|window| - 1], turn);
    }
  }

  /** A turn that can be kept is the last of the window. */
  lemma {:induction false} LastTurnKept(log: seq<Turn>, turn: Turn)
    requires Fits([turn]) && turn != []
    ensures turn[0] in Flatten(Window(log + [turn]))
  {
    var longer := log + [turn];
    assert longer[|log|..] == [turn];
    WindowIsLongestFittingSuffix(longer, |log|);
    var window := Window(longer);
    assert window == window[..|window| - 1] + [turn];
    FlattenAppend(window[..|window| - 1], turn);
  }

  /** An accepted commit leaves the room's log, or an empty one, with the turn appended. */
  lemma {:induction false} CommitAppends(room: RoomView, expected: nat, format: WireFormat, turn: Turn)
      returns (log: seq<Turn>)
    requires room.Generation() == expected
    ensures log == room.log || log == []
    ensures room.Commit(expected, format, turn).log == log + [turn]
  {
    log := if room.wireFormat == Some(format) && room.settings.mode == Chat then room.log else [];
  }

  lemma {:induction false} CommitKeepsSince(s: State, serial: nat, bodies: seq<Json>)
    requires SinceInv(s) && s.room.Some? && serial in s.flights && !s.flights[serial].cancelled
    requires s.room.value.Generation() == s.flights[serial].generation
    ensures var e := Succeed(serial, bodies);
      if BringsBack(s, e) then !Fresh(Step(s, e)) else SinceInv(Step(s, e))
  {
    var e, flight := Succeed(serial, bodies), s.flights[serial];
    var turn := Produced(bodies, flight.format, serial);
    var log := CommitAppends(s.room.value, flight.generation, flight.format, turn);
    if !Fits([turn]) {
      TooLarge(log, turn);
    } else if serial >= s.resetAt || bodies == [] {
      AppendBegun(log, turn, s.resetAt, s.next);
    } else {
      LastTurnKept(log, turn);
      assert turn[0].serial < s.resetAt;
    }
  }

  lemma {:induction false} RestoreKeepsSince(s: State, serial: nat)
    requires SinceInv(s) && s.room.Some? && serial in s.flights && s.flights[serial].rollback.Some?
    requires s.room.value.Generation() == s.flights[serial].generation
    ensures var e := Fail(serial);
      if BringsBack(s, e) then !Fresh(Step(s, e)) else SinceInv(Step(s, e))
  {
    var flight := s.flights[serial];
    assert SavedSince(flight, serial, s.resetAt);
    var window := Window(flight.rollback.value.log);
    if Flatten(window) == [] {
      NothingBegun(window, s.resetAt, s.next);
    } else if serial < s.resetAt {
      FlattenBegun(window, 0, serial);
      assert Flatten(window)[0].serial < s.resetAt;
    }
  }

  /** A step brings old items back exactly when the guard says so. */
  lemma {:induction false} StepIsFreshExactly(s: State, e: Event)
    requires SinceInv(s)
    ensures if BringsBack(s, e) then !Fresh(Step(s, e)) else SinceInv(Step(s, e))
  {
    if (e.Succeed? || e.Fail?) && e.serial in s.flights && s.room.Some?
       && s.room.value.Generation() == s.flights[e.serial].generation
    {
      if e.Succeed? && !s.flights[e.serial].cancelled {
        CommitKeepsSince(s, e.serial, e.bodies);
      } else if e.Fail? && s.flights[e.serial].rollback.Some? {
        RestoreKeepsSince(s, e.serial);
      }
    } else {
      var t := Step(s, e);
      forall k | k in t.flights
        ensures SavedSince(t.flights[k], k, t.resetAt)
      {
        assert k in s.flights ==> SavedSince(s.flights[k], k, s.resetAt);
      }
    }
  }

  lemma {:induction false} RunIsFreshExactly(s: State, events: seq<Event>)
    requires SinceInv(s)
    ensures AlwaysFresh(s, events) <==> NeverBringsBack(s, events)
    ensures NeverBringsBack(s, events) ==> SinceInv(Run(s, events))
    decreases events
  {
    SinceIsFresh(s);
    if events != [] {
      StepIsFreshExactly(s, events[0]);
      if !BringsBack(s, events[0]) {
        RunIsFreshExactly(Step(s, events[0]), events[1..]);
      } else {
        NotFreshNow(Step(s, events[0]), events[1..]);
      }
    }
  }

  lemma {:induction false} NotFreshNow(s: State, events: seq<Event>)
    requires !Fresh(s)
    ensures !AlwaysFresh(s, events)
  {
  }

  // ---------- Main results ----------

  /** Whatever is interleaved, late failures of cancelled turns and wrapped generations included, a
      room's history never mixes wire formats. */
  lemma {:induction false} HistoryNeverMixesFormats(events: seq<Event>)
    ensures var s := Run(INIT, events);
            s.room.Some? ==> PureItems(s.room.value.History(), s.room.value.wireFormat)
  {
    RunKeepsFormats(INIT, events);
    var s := Run(INIT, events);
    if s.room.Some? {
      HistoryPure(s.room.value);
    }
  }

  /** In the same runs no request ever carries an item produced by another wire format. */
  lemma {:induction false} RequestsCarryOwnFormat(events: seq<Event>)
    ensures RequestsPure(Run(INIT, events).sent)
  {
    RunKeepsFormats(INIT, events);
  }

  /** Beginning a turn adds one request: in chat mode with everything the room remembers of that wire
      format, in message mode with nothing. */
  lemma {:induction false} RequestsCarryHistory(s: State, format: WireFormat)
    ensures var before, t := s.room.GetOr(NEW_ROOM), Step(s, Begin(format));
      && |t.sent| == |s.sent| + 1 && t.sent[..|s.sent|] == s.sent
      && t.sent[|s.sent|].format == format
      && t.sent[|s.sent|].history
           == if before.settings.mode == Chat && before.wireFormat == Some(format)
              then Flatten(Window(before.log)) else []
  {
    WindowIsLongestFittingSuffix([], 0);
  }

  /** In the same runs, a commit that is accepted within 2^64 generations finds the room still in
      the wire format its turn began in. */
  lemma {:induction false} AcceptedCommitKeepsFormat(events: seq<Event>, serial: nat, bodies: seq<Json>)
    requires var s := Run(INIT, events);
      && s.room.Some? && serial in s.flights && !s.flights[serial].cancelled && Recent(s, serial)
      && s.room.value.Generation() == s.flights[serial].generation
    ensures var s := Run(INIT, events);
            s.room.value.wireFormat == Some(s.flights[serial].format)
    ensures var s := Run(INIT, events);
            var room := s.room.value;
            var turn := Produced(bodies, s.flights[serial].format, serial);
            Step(s, Succeed(serial, bodies)).room
              == Some(room.(log := if room.settings.mode == Chat then room.log + [turn] else [turn]))
  {
    RunKeepsEpochs(INIT, events);
    var s := Run(INIT, events);
    assert EpochOf(s.room.value, s.flights[serial], serial, s.resetAt);
    SameGeneration(s.flights[serial].startEpoch, s.room.value.epoch);
  }

  /** Throughout a run the history holds only items produced by turns begun after the latest reset,
      exactly when no turn begun before a reset finds its generation again with something to write. */
  lemma {:induction false} NoResurrection(events: seq<Event>)
    ensures AlwaysFresh(INIT, events) <==> NeverBringsBack(INIT, events)
  {
    RunIsFreshExactly(INIT, events);
  }

  /** The turn that lands is neither a cancelled one whose failure handler still runs, nor one that
      2^64 generations have passed. */
  predicate Punctual(s: State, e: Event) {
    (e.Succeed? || e.Fail?) && e.serial in s.flights ==>
      if s.flights[e.serial].cancelled then e.Succeed? else Recent(s, e.serial)
  }

  predicate PunctualRun(s: State, events: seq<Event>)
    decreases events
  {
    events == [] || (Punctual(s, events[0]) && PunctualRun(Step(s, events[0]), events[1..]))
  }

  lemma {:induction false} PunctualStep(s: State, e: Event)
    requires EpochInv(s) && Punctual(s, e)
    ensures !BringsBack(s, e)
  {
    if BringsBack(s, e) {
      assert EpochOf(s.room.value, s.flights[e.serial], e.serial, s.resetAt);
      SameGeneration(s.flights[e.serial].startEpoch, s.room.value.epoch);
    }
  }

  lemma {:induction false} PunctualTurnsBringNothingBack(s: State, events: seq<Event>)
    requires EpochInv(s) && PunctualRun(s, events)
    ensures NeverBringsBack(s, events)
    decreases events
  {
    if events != [] {
      PunctualStep(s, events[0]);
      StepKeepsEpochs(s, events[0]);
      PunctualTurnsBringNothingBack(Step(s, events[0]), events[1..]);
    }
  }

  /** With cancelled turns aborted before they fail, and none outliving 2^64 generations, the history
      is made of turns begun after the latest reset throughout. */
  lemma {:induction false} PunctualTurnsNeverResurrect(events: seq<Event>)
    requires PunctualRun(INIT, events)
    ensures AlwaysFresh(INIT, events)
  {
    PunctualTurnsBringNothingBack(INIT, events);
    RunIsFreshExactly(INIT, events);
  }

  predicate SettingsOnly(e: Event) {
    (e.Change? && e.kind == KeepsHistory) || e.RollBackSettings?
  }

  lemma {:induction false} SettingsOnlyRun(s: State, events: seq<Event>)
    requires s.room.Some? && forall e :: e in events ==> SettingsOnly(e)
    ensures var t := Run(s, events);
      && t.room.Some? && t == s.(room := Some(s.room.value.(settings := t.room.value.settings)))
      && (events == [] ==> t == s)
      && (events != [] ==> SettingsOnly(events[|events| - 1]) && t.room.value.settings == events[|events| - 1].settings)
    decreases events
  {
    if events != [] {
      assert SettingsOnly(events[0]);
      SettingsOnlyRun(Step(s, events[0]), events[1..]);
    }
  }

  /** One turn in flight, any settings changes meanwhile, then a provider failure: the room is as
      it was before the turn, under the newest settings, and the turn's token no longer fits
      whenever it set anything aside. */
  lemma {:induction false} FailedTurnRestoresRoom(s: State, format: WireFormat, changes: seq<Event>)
    requires forall e :: e in changes ==> SettingsOnly(e)
    ensures var before := s.room.GetOr(NEW_ROOM);
      var during := Run(Step(s, Begin(format)), changes);
      var after := Step(during, Fail(s.next));
      && during.room.Some? && after.room.Some?
      && after.room.value.wireFormat == before.wireFormat
      && after.room.value.log == before.log
      && after.room.value.settings
           == (if changes == [] then before.settings else assert SettingsOnly(changes[|changes| - 1]);
                                                          changes[|changes| - 1].settings)
      && (before.wireFormat == Some(format) ==> after.room == during.room)
      && (before.wireFormat != Some(format) ==>
            after.room.value.Generation() != Step(s, Begin(format)).flights[s.next].generation)
  {
    var begun := Step(s, Begin(format));
    SettingsOnlyRun(begun, changes);
  }

  /** Once a rollback has succeeded, its token fits no generation for the next 2^64 - 1 bumps. */
  lemma {:induction false} RollbackSucceedsOnce(
      room: RoomView, saved: SavedContext, later: RoomView, again: Option<SavedContext>)
    requires var restored := room.Restore(room.Generation(), Some(saved));
      restored.epoch <= later.epoch < restored.epoch + (GENERATIONS - 1)
    ensures later.Restore(room.Generation(), again) == later
  {
  }

  // ---------- The two kinds of late turn ----------

  function Resets(room: RoomView, n: nat): RoomView
    decreases n
  {
    if n == 0 then room else Resets(room.Reset(), n - 1)
  }

  lemma {:induction false} ResetsCount(room: RoomView, n: nat)
    ensures Resets(room, n).epoch == room.epoch + n
    decreases n
  {
    if n > 0 {
      ResetsCount(room.Reset(), n - 1);
    }
  }

  /** A stale token is taken for a fresh one exactly when the resets since are a multiple of 2^64. */
  lemma {:induction false} StaleTokenAcceptedExactlyOnWrap(room: RoomView, n: nat)
    ensures Resets(room, n).Generation() == room.Generation() <==> n % GENERATIONS == 0
  {
    ResetsCount(room, n);
  }

  /** While nothing has come back yet, the late failure of a cancelled turn puts old items into the
      history exactly when the generations happen to agree and the token's history is not empty. */
  lemma {:induction false} LateFailureHarmsExactly(events: seq<Event>, serial: nat)
    requires NeverBringsBack(INIT, events)
    requires var s := Run(INIT, events);
      s.room.Some? && serial in s.flights && s.flights[serial].cancelled
    ensures var s := Run(INIT, events);
      var flight, after := s.flights[serial], Step(s, Fail(serial)).room.value;
      !BegunItems(after.History(), s.resetAt, s.next) <==>
        flight.generation == s.room.value.Generation() && HoldsItems(flight)
  {
    RunIsFreshExactly(INIT, events);
    var s := Run(INIT, events);
    StepIsFreshExactly(s, Fail(serial));
    if !BringsBack(s, Fail(serial)) {
      SinceIsFresh(Step(s, Fail(serial)));
    }
  }

  /** Removing a room restarts its generations, so without the abort a denied turn that fails late
      would put the denied conversation back into the chat's next room, if it was small enough to be
      remembered at all. */
  lemma {:induction false} LateFailureOfDeniedTurnResurrects(body: Json)
    ensures var denied := Step(Step(Step(Step(INIT, Begin(Anthropic)), Succeed(0, [body])), Begin(Responses)), Deny);
      var s := Step(Step(Step(denied, Begin(Anthropic)), Begin(Responses)), Fail(1));
      && s.resetAt == 2 && s.room.Some? && s.room.value.wireFormat == Some(Anthropic)
      && s.room.value.History() == if TrueBytes(body) <= MAX_HISTORY_BYTES then [Item(body, Anthropic, 0)] else []
  {
    var private := [[Item(body, Anthropic, 0)]];
    var before := DeniedTurn(body);
    RememberedAlone(private[0][0]);
    var denied := Step(Step(Step(Step(INIT, Begin(Anthropic)), Succeed(0, [body])), Begin(Responses)), Deny);
    var again := Step(Step(denied, Begin(Anthropic)), Begin(Responses));
    assert again == Step(Step(before, Begin(Anthropic)), Begin(Responses));
    assert again.room.value.Generation() == 2 && again.flights[1] == before.flights[1];
    assert Step(again, Fail(1)).room.value.log == private;
  }

  /** The denied turn left in flight. */
  lemma {:induction false} DeniedTurn(body: Json) returns (denied: State)
    ensures denied == Step(Step(Step(Step(INIT, Begin(Anthropic)), Succeed(0, [body])), Begin(Responses)), Deny)
    ensures denied.room == None && denied.next == 2
    ensures denied.flights
         == map[1 := Flight(Responses, 2, 2, Some(SavedContext(Some(Anthropic), [[Item(body, Anthropic, 0)]])), true)]
  {
    var private := [[Item(body, Anthropic, 0)]];
    assert Produced([body], Anthropic, 0) == private[0];
    var s1 := Step(INIT, Begin(Anthropic));
    assert s1.flights == map[0 := Flight(Anthropic, 1, 1, Some(SavedContext(None, [])), false)];
    var s2 := Step(s1, Succeed(0, [body]));
    assert [] + [private[0]] == private;
    assert s2.room == Some(NEW_ROOM.(wireFormat := Some(Anthropic), log := private, epoch := 1));
    assert s2.flights == map[];
    denied := Step(Step(s2, Begin(Responses)), Deny);
  }

  lemma {:induction false} RememberedAlone(item: Item)
    ensures Flatten(Window([[item]])) == if TrueBytes(item.body) <= MAX_HISTORY_BYTES then [item] else []
  {
    assert [item][..0] == [] && [[item]][1..] == [];
    assert TrueTurnBytes([item]) == TrueBytes(item.body);
    assert TrueTotal([[item]]) == TrueBytes(item.body);
  }
}
