/** One chat room: its settings, and the bounded history of provider turns it replays. */
module Rooms {
  import opened Prelude
  import opened JsonSize

  const MAX_HISTORY_TURNS: nat := 32
  const MAX_HISTORY_BYTES: nat := 4 * 1024 * 1024
  /** Generations are 64-bit and wrap. */
  const GENERATIONS: nat := 0x1_0000_0000_0000_0000

  datatype WireFormat = Anthropic | Responses | Compat | Gemini
  datatype ChatMode = Chat | Message
  datatype ThinkingLevel = Off | Low | Medium | High | Max

  datatype RoomSettings = RoomSettings(
    modelKey: Option<string>,
    mode: ChatMode,
    role: Option<string>,
    thinking: Option<ThinkingLevel>,
    webSearch: bool,
    imageGeneration: bool)

  const DEFAULT_SETTINGS := RoomSettings(None, Chat, None, None, false, false)

  /** A history item. The body is opaque to the runtime; `format` and `serial` name the
      provider and the request that produced it, and no operation looks at them. */
  datatype Item = Item(body: Json, format: WireFormat, serial: nat)

  type Turn = seq<Item>

  /** What a room remembers of a turn: how many items to drain, and their estimated size. */
  datatype HistoryTurn = HistoryTurn(itemCount: nat, approxBytes: nat)

  datatype HistoryReset = NoReset | WireFormatChanged(previous: Option<WireFormat>, current: WireFormat)

  datatype FailedTurnRollback = FailedTurnRollback(
    wireFormat: Option<WireFormat>, history: seq<Item>, historyTurns: seq<HistoryTurn>)

  datatype TurnStart = TurnStart(reset: HistoryReset, rollback: Option<FailedTurnRollback>)

  // ---------- The window of remembered turns ----------

  /** The true size of a turn, on unbounded integers. */
  function TrueTurnBytes(turn: Turn): nat {
    if turn == [] then 0 else TrueTurnBytes(turn[..|turn| - 1]) + TrueBytes(turn[|turn| - 1].body)
  }

  function TrueTotal(turns: seq<Turn>): nat {
    if turns == [] then 0 else TrueTurnBytes(turns[0]) + TrueTotal(turns[1..])
  }

  predicate Fits(turns: seq<Turn>) {
    |turns| <= MAX_HISTORY_TURNS && TrueTotal(turns) <= MAX_HISTORY_BYTES
  }

  /** The turns a room is meant to remember out of all turns logged since its history was cleared. */
  function Window(log: seq<Turn>): (w: seq<Turn>)
    ensures Fits(w)
  {
    if Fits(log) then log else Window(log[1..])
  }

  function Flatten(turns: seq<Turn>): seq<Item> {
    if turns == [] then [] else turns[0] + Flatten(turns[1..])
  }

  // ---------- The estimates the code keeps ----------

  function TurnBytes(items: Turn): nat {
    if items == [] then 0
    else SaturatingAdd(TurnBytes(items[..|items| - 1]), ApproxBytes(items[|items| - 1].body))
  }

  function HistoryBytes(turns: seq<HistoryTurn>): nat {
    if turns == [] then 0
    else SaturatingAdd(HistoryBytes(turns[..|turns| - 1]), turns[|turns| - 1].approxBytes)
  }

  function Measure(turn: Turn): HistoryTurn {
    HistoryTurn(|turn|, TurnBytes(turn))
  }

  function Measures(turns: seq<Turn>): seq<HistoryTurn> {
    seq(|turns|, i requires 0 <= i < |turns| => Measure(turns[i]))
  }

  // ---------- Facts about the window ----------

  /** The window is a suffix of the log with at most 32 turns and 4 MiB, and every suffix within these
      limits is no longer than it. */
  lemma {:induction false} WindowIsLongestFittingSuffix(log: seq<Turn>, k: nat)
    requires k <= |log|
    ensures |Window(log)| <= |log| && Window(log) == log[|log| - |Window(log)|..]
    ensures |Window(log)| <= 32 && TrueTotal(Window(log)) <= 4194304
    ensures |log| - k <= 32 && TrueTotal(log[k..]) <= 4194304 ==> |log| - k <= |Window(log)|
  {
    if !Fits(log) {
      if k == 0 {
        assert log[0..] == log;
        WindowIsLongestFittingSuffix(log[1..], 0);
      } else {
        assert log[k..] == log[1..][k - 1..];
        WindowIsLongestFittingSuffix(log[1..], k - 1);
      }
      var w := |Window(log)|;
      assert log[1..][|log| - 1 - w..] == log[|log| - w..];
    }
  }

  /** The size of turns is the sum over their items. */
  lemma {:induction false} TrueTotalIsSum(turns: seq<Turn>, turn: Turn, item: Item)
    ensures TrueTotal(turns) == TrueTurnBytes(Flatten(turns))
    ensures TrueTurnBytes([]) == 0 && TrueTurnBytes(turn + [item]) == TrueTurnBytes(turn) + TrueBytes(item.body)
  {
    assert (turn + [item])[..|turn|] == turn;
    if turns != [] {
      TrueTotalIsSum(turns[1..], turn, item);
      TurnBytesConcat(turns[0], Flatten(turns[1..]));
    }
  }

  lemma {:induction false} TurnBytesConcat(a: Turn, b: Turn)
    ensures TrueTurnBytes(a + b) == TrueTurnBytes(a) + TrueTurnBytes(b)
  {
    if b == [] {
      assert a + b == a;
    } else {
      assert (a + b)[..|a + b| - 1] == a + b[..|b| - 1];
      TurnBytesConcat(a, b[..|b| - 1]);
    }
  }

  lemma {:induction false} TrueTotalAppend(turns: seq<Turn>, turn: Turn)
    ensures TrueTotal(turns + [turn]) == TrueTotal(turns) + TrueTurnBytes(turn)
  {
    if turns == [] {
      assert turns + [turn] == [turn];
      assert [turn][1..] == [];
    } else {
      assert (turns + [turn])[1..] == turns[1..] + [turn];
      TrueTotalAppend(turns[1..], turn);
    }
  }

  /** Forgotten turns never matter again: pruning as turns arrive gives the same window as
      choosing it from the complete log. */
  lemma {:induction false} WindowIsIncremental(log: seq<Turn>, turn: Turn)
    ensures Window(log + [turn]) == Window(Window(log) + [turn])
  {
    if !Fits(log) {
      TrueTotalAppend(log, turn);
      assert (log + [turn])[1..] == log[1..] + [turn];
      WindowIsIncremental(log[1..], turn);
    }
  }

  lemma {:induction false} TurnBytesCapped(turn: Turn)
    ensures TurnBytes(turn) == Min(TrueTurnBytes(turn), USIZE_MAX)
  {
    if turn != [] {
      TurnBytesCapped(turn[..|turn| - 1]);
      ApproxIsCappedTruth(turn[|turn| - 1].body);
    }
  }

  lemma {:induction false} HistoryBytesCapped(turns: seq<Turn>)
    ensures HistoryBytes(Measures(turns)) == Min(TrueTotal(turns), USIZE_MAX)
  {
    if turns != [] {
      var front, last := turns[..|turns| - 1], turns[|turns| - 1];
      assert turns == front + [last];
      TrueTotalAppend(front, last);
      assert Measures(turns)[..|turns| - 1] == Measures(front);
      HistoryBytesCapped(front);
      TurnBytesCapped(last);
    }
  }

  /** The guard the pruning loop tests on saturated estimates is the true limit. */
  lemma {:induction false} PruneGuardIsExact(turns: seq<Turn>)
    ensures (|Measures(turns)| > MAX_HISTORY_TURNS || HistoryBytes(Measures(turns)) > MAX_HISTORY_BYTES)
         <==> !Fits(turns)
  {
    HistoryBytesCapped(turns);
  }

  lemma {:induction false} FlattenAppend(turns: seq<Turn>, turn: Turn)
    ensures Flatten(turns + [turn]) == Flatten(turns) + turn
  {
    if turns == [] {
      assert turns + [turn] == [turn];
      assert [turn][1..] == [];
    } else {
      assert (turns + [turn])[1..] == turns[1..] + [turn];
      FlattenAppend(turns[1..], turn);
      assert turns[0] + (Flatten(turns[1..]) + turn) == turns[0] + Flatten(turns[1..]) + turn;
    }
  }

  // ---------- The room as a caller should see it ----------

  /** A room by its complete log since the last clear and an unbounded count of generation bumps. */
  datatype RoomView = RoomView(
    settings: RoomSettings, wireFormat: Option<WireFormat>, log: seq<Turn>, epoch: nat)
  {
    function History(): seq<Item> {
      Flatten(Window(log))
    }

    function Generation(): nat {
      epoch % GENERATIONS
    }

    function Reset(): RoomView {
      this.(log := [], epoch := epoch + 1)
    }

    function Begin(format: WireFormat): RoomView {
      if wireFormat == Some(format) then this
      else this.(wireFormat := Some(format), log := [], epoch := epoch + 1)
    }

    function Append(format: WireFormat, turn: Turn): RoomView {
      var room := if wireFormat == Some(format) then this else this.(wireFormat := Some(format)).Reset();
      room.(log := if settings.mode == Chat then room.log + [turn] else [turn])
    }

    function Commit(expected: nat, format: WireFormat, turn: Turn): RoomView {
      if Generation() != expected then this else Append(format, turn)
    }

    /** `saved` is what a transition to another wire format set aside, if the turn made one. */
    function Restore(expected: nat, saved: Option<SavedContext>): RoomView {
      if Generation() != expected || saved.None? then this
      else this.(wireFormat := saved.value.wireFormat, log := saved.value.log, epoch := epoch + 1)
    }
  }

  datatype SavedContext = SavedContext(wireFormat: Option<WireFormat>, log: seq<Turn>)

  const NEW_ROOM := RoomView(DEFAULT_SETTINGS, None, [], 0)

  /** A rollback token holds exactly the window of a saved log. */
  ghost predicate Holds(token: Option<FailedTurnRollback>, saved: Option<SavedContext>) {
    match (token, saved)
    case (None, None) => true
    case (Some(t), Some(s)) =>
      && t.wireFormat == s.wireFormat
      && t.history == Flatten(Window(s.log))
      && t.historyTurns == Measures(Window(s.log))
    case _ => false
  }

  // ---------- The room as the program keeps it ----------

  class RoomState {
    var settings: RoomSettings
    var wireFormat: Option<WireFormat>
    var history: seq<Item>
    var historyTurns: seq<HistoryTurn>
    var generation: nat

    /** Every turn appended since the history was last cleared, forgotten ones included. */
    ghost var log: seq<Turn>
    /** The generation bumps, without the wrap. */
    ghost var epoch: nat

    ghost predicate Valid()
      reads this
    {
      && history == Flatten(Window(log))
      && historyTurns == Measures(Window(log))
      && generation == epoch % GENERATIONS
    }

    ghost function View(): RoomView
      reads this
    {
      RoomView(settings, wireFormat, log, epoch)
    }

    constructor (settings: RoomSettings)
      ensures Valid() && View() == NEW_ROOM.(settings := settings)
    {
      this.settings := settings;
      wireFormat, history, historyTurns, generation := None, [], [], 0;
      log, epoch := [], 0;
    }

    method BeginTurn(format: WireFormat) returns (start: TurnStart)
      requires Valid()
      modifies this
      ensures Valid() && View() == old(View()).Begin(format)
      ensures start.reset == if old(wireFormat) == Some(format) then NoReset
                             else WireFormatChanged(old(wireFormat), format)
      ensures Holds(start.rollback,
                    if old(wireFormat) == Some(format) then None
                    else Some(SavedContext(old(wireFormat), old(log))))
    {
      if wireFormat != Some(format) {
        var previous := wireFormat;
        var rollback := FailedTurnRollback(previous, history, historyTurns);
        history, historyTurns, log := [], [], [];
        wireFormat := Some(format);
        BumpGeneration();
        return TurnStart(WireFormatChanged(previous, format), Some(rollback));
      }
      return TurnStart(NoReset, None);
    }

    method AppendTurn(format: WireFormat, items: Turn)
      requires Valid()
      modifies this
      ensures Valid() && View() == old(View()).Append(format, items)
    {
      if wireFormat != Some(format) {
        wireFormat := Some(format);
        ResetHistory();
      }
      if settings.mode == Message {
        ClearHistoryStorage();
      }
      PushTurn(items);
      assert settings.mode == Message ==> log == [items];
    }

    method ResetHistory()
      requires Valid()
      modifies this
      ensures Valid() && View() == old(View()).Reset()
    {
      ClearHistoryStorage();
      BumpGeneration();
    }

    method AppendTurnIfGeneration(expected: nat, format: WireFormat, items: Turn) returns (committed: bool)
      requires Valid()
      modifies this
      ensures Valid() && View() == old(View()).Commit(expected, format, items)
      ensures committed <==> old(generation) == expected
    {
      if generation != expected {
        return false;
      }
      AppendTurn(format, items);
      return true;
    }

    method RestoreFailedTurn(expected: nat, rollback: Option<FailedTurnRollback>, ghost saved: Option<SavedContext>)
        returns (restored: bool)
      requires Valid() && Holds(rollback, saved)
      modifies this
      ensures Valid() && View() == old(View()).Restore(expected, saved)
      ensures restored <==> old(generation) == expected
    {
      if generation != expected {
        return false;
      }
      if rollback.None? {
        return true;
      }
      wireFormat := rollback.value.wireFormat;
      history := rollback.value.history;
      historyTurns := rollback.value.historyTurns;
      log := saved.value.log;
      BumpGeneration();
      return true;
    }

    method BumpGeneration()
      modifies this`generation, this`epoch
      ensures generation == (old(generation) + 1) % GENERATIONS && epoch == old(epoch) + 1
    {
      generation := (generation + 1) % GENERATIONS;
      epoch := epoch + 1;
    }

    method ClearHistoryStorage()
      modifies this`history, this`historyTurns, this`log
      ensures history == [] && historyTurns == [] && log == []
    {
      history, historyTurns, log := [], [], [];
    }

    /** Appends a turn and forgets the oldest ones until both limits hold again. */
    method PushTurn(items: Turn)
      requires Valid()
      modifies this`history, this`historyTurns, this`log
      ensures Valid() && log == old(log) + [items]
    {
      ghost var kept := Window(log) + [items];
      WindowIsIncremental(log, items);
      FlattenAppend(Window(log), items);
      history := history + items;
      historyTurns := historyTurns + [HistoryTurn(|items|, TurnBytes(items))];
      log := log + [items];
      assert historyTurns == Measures(kept);
      PruneGuardIsExact(kept);
      while |historyTurns| > MAX_HISTORY_TURNS || HistoryBytes(historyTurns) > MAX_HISTORY_BYTES
        invariant history == Flatten(kept) && historyTurns == Measures(kept)
        invariant log == old(log) + [items] && Window(kept) == Window(log)
        invariant (|historyTurns| > MAX_HISTORY_TURNS || HistoryBytes(historyTurns) > MAX_HISTORY_BYTES)
             <==> !Fits(kept)
        decreases |historyTurns|
      {
        if historyTurns == [] {
          break;
        }
        var oldest := historyTurns[0];
        historyTurns := historyTurns[1..];
        history := history[oldest.itemCount..];
        kept := kept[1..];
        assert historyTurns == Measures(kept);
        PruneGuardIsExact(kept);
      }
    }
  }
}
