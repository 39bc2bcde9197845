/** The Anthropic exchange: a paused answer is sent back and continued a bounded number of times, and
    a finished one is logged as the turn to replay. */
module AnthropicChat {
  import opened Prelude
  import opened JsonSize
  import Rooms
  import RoomProtocol

  type Bytes = seq<Byte>

  const MAX_PAUSE_TURN_CONTINUATIONS := 5

  /** What one request came back with; `Lost` covers transport errors and error statuses. */
  datatype Reply = Lost | Body(value: Json)

  datatype ProviderError = Unsupported | Refusal(message: Bytes) | RequestFailed | ContinuationLimit

  datatype ChatResult = Answered(text: Bytes, turnItems: seq<Json>) | Failed(error: ProviderError)

  // ---------- Reading replies ----------

  function Get(v: Json, key: Bytes): Option<Json> {
    if v.Object? then Lookup(v.fields, key) else None
  }

  function Lookup(fields: seq<Field>, key: Bytes): Option<Json> {
    if fields == [] then None
    else if fields[0].key == key then Some(fields[0].value)
    else Lookup(fields[1..], key)
  }

  function AsText(v: Option<Json>): Option<Bytes> {
    if v.Some? && v.value.Text? then Some(v.value.utf8) else None
  }

  function StopReason(body: Json): Bytes {
    AsText(Get(body, Ascii("stop_reason"))).GetOr([])
  }

  function Content(body: Json): seq<Json> {
    var content := Get(body, Ascii("content"));
    if content.Some? && content.value.Array? then content.value.values else []
  }

  /** The text of the text blocks, in order. */
  function ExtractText(content: seq<Json>): Bytes {
    if content == [] then []
    else
      var block := content[0];
      var text := if AsText(Get(block, Ascii("type"))) == Some(Ascii("text"))
                  then AsText(Get(block, Ascii("text"))).GetOr([]) else [];
      text + ExtractText(content[1..])
  }

  function Detail(body: Json, key: Bytes): Option<Json> {
    match Get(body, Ascii("stop_details"))
    case None => None
    case Some(details) => Get(details, key)
  }

  function RefusalMessage(body: Json): Bytes {
    var explanation := Detail(body, Ascii("explanation"));
    var shown := if explanation.Some? then explanation else Detail(body, Ascii("category"));
    AsText(shown).GetOr(Ascii("request declined"))
  }

  function Message(role: string, content: seq<Json>): Json {
    Object([Field(Ascii("role"), Text(Ascii(role))), Field(Ascii("content"), Array(content))])
  }

  // ---------- The exchange ----------

  function ReplyAt(replies: seq<Reply>, n: nat): Reply {
    if n < |replies| then replies[n] else Lost
  }

  /** What a reply means for the exchange. */
  datatype Verdict = Broken | Declined(message: Bytes) | Paused | Finished

  function Judge(reply: Reply): Verdict {
    match reply
    case Lost => Broken
    case Body(body) =>
      if StopReason(body) == Ascii("refusal") then
        var text := ExtractText(Content(body));
        Declined(if text == [] then RefusalMessage(body) else text)
      else if StopReason(body) == Ascii("pause_turn") then Paused
      else Finished
  }

  /** The assistant messages of the first n replies, verbatim. */
  function Assistants(replies: seq<Reply>, n: nat): seq<Json>
    requires n <= |replies|
    requires forall i :: 0 <= i < n ==> replies[i].Body?
  {
    seq(n, i requires 0 <= i < n => Message("assistant", Content(replies[i].value)))
  }

  function Texts(replies: seq<Reply>, n: nat): Bytes
    requires n <= |replies|
    requires forall i :: 0 <= i < n ==> replies[i].Body?
  {
    if n == 0 then [] else Texts(replies, n - 1) + ExtractText(Content(replies[n - 1].value))
  }

  /** The first n replies are pauses. */
  ghost predicate AllPauses(replies: seq<Reply>, n: nat) {
    n <= |replies| && forall i :: 0 <= i < n ==> Judge(replies[i]) == Paused
  }

  /** What the exchange comes to. The request after the last pause is the deciding one. */
  ghost predicate Outcome(
      history: seq<Json>, user: Json, replies: seq<Reply>, sent: seq<seq<Json>>, result: ChatResult) {
    sent != [] &&
    var pauses := |sent| - 1;
    && pauses <= MAX_PAUSE_TURN_CONTINUATIONS
    && AllPauses(replies, pauses)
    && (forall i :: 0 <= i <= pauses ==> sent[i] == history + [user] + Assistants(replies, i))
    && match Judge(ReplyAt(replies, pauses))
       case Broken => result == Failed(RequestFailed)
       case Declined(message) => result == Failed(Refusal(message))
       case Paused => pauses == MAX_PAUSE_TURN_CONTINUATIONS && result == Failed(ContinuationLimit)
       case Finished =>
         result == Answered(Texts(replies, pauses + 1), [user] + Assistants(replies, pauses + 1))
  }

  // ---------- The program ----------

  /** `sent` lists the messages of every request made. */
  method Chat(imageGeneration: bool, history: seq<Json>, user: Json, replies: seq<Reply>)
      returns (result: ChatResult, sent: seq<seq<Json>>)
    ensures imageGeneration ==> sent == [] && result == Failed(Unsupported)
    ensures !imageGeneration ==> Outcome(history, user, replies, sent, result)
  {
    if imageGeneration {
      return Failed(Unsupported), [];
    }
    result, sent := Exchange(history, user, replies);
  }

  method Exchange(history: seq<Json>, user: Json, replies: seq<Reply>)
      returns (result: ChatResult, sent: seq<seq<Json>>)
    ensures Outcome(history, user, replies, sent, result)
  {
    sent := [];
    var messages, assistantMessages, text := history + [user], [], [];
    var continuation := 0;
    while true
      invariant continuation <= MAX_PAUSE_TURN_CONTINUATIONS
      invariant Progress(history, user, replies, continuation, sent, messages, assistantMessages, text)
      decreases MAX_PAUSE_TURN_CONTINUATIONS - continuation
    {
      ghost var earlier := sent;
      sent := sent + [messages];
      var reply := ReplyAt(replies, continuation);
      if reply.Lost? {
        return Failed(RequestFailed), sent;
      }
      var content := Content(reply.value);
      var part := ExtractText(content);
      var verdict := ReadReply(reply.value, part);
      if verdict.Paused? {
        ProgressNext(history, user, replies, continuation, earlier, messages, assistantMessages, text);
      }
      if verdict.Declined? {
        return Failed(Refusal(verdict.message)), sent;
      }
      var assistantMessage := Message("assistant", content);
      text := text + part;
      OneMoreAssistant(replies, continuation);
      if verdict.Finished? {
        return Answered(text, [user] + (assistantMessages + [assistantMessage])), sent;
      }
      if continuation == MAX_PAUSE_TURN_CONTINUATIONS {
        return Failed(ContinuationLimit), sent;
      }
      messages := messages + [assistantMessage];
      assistantMessages := assistantMessages + [assistantMessage];
      continuation := continuation + 1;
    }
  }

  ghost predicate Progress(history: seq<Json>, user: Json, replies: seq<Reply>, pauses: nat, sent: seq<seq<Json>>,
                           messages: seq<Json>, assistants: seq<Json>, text: Bytes) {
    && AllPauses(replies, pauses)
    && |sent| == pauses
    && (forall i :: 0 <= i < pauses ==> sent[i] == history + [user] + Assistants(replies, i))
    && assistants == Assistants(replies, pauses)
    && messages == history + [user] + assistants
    && text == Texts(replies, pauses)
  }

  lemma {:induction false} ProgressNext(
      history: seq<Json>, user: Json, replies: seq<Reply>, pauses: nat, sent: seq<seq<Json>>,
      messages: seq<Json>, assistants: seq<Json>, text: Bytes)
    requires Progress(history, user, replies, pauses, sent, messages, assistants, text)
    requires Judge(ReplyAt(replies, pauses)) == Paused
    ensures var content := Content(replies[pauses].value);
      var next := Message("assistant", content);
      Progress(history, user, replies, pauses + 1, sent + [messages], messages + [next], assistants + [next],
               text + ExtractText(content))
  {
  }

  lemma {:induction false} OneMoreAssistant(replies: seq<Reply>, n: nat)
    requires n < |replies| && forall i :: 0 <= i <= n ==> replies[i].Body?
    ensures Assistants(replies, n + 1) == Assistants(replies, n) + [Message("assistant", Content(replies[n].value))]
  {
  }

  method ReadReply(body: Json, text: Bytes) returns (verdict: Verdict)
    requires text == ExtractText(Content(body))
    ensures verdict == Judge(Body(body))
  {
    var stopReason := StopReason(body);
    if stopReason == Ascii("refusal") {
      return Declined(if text == [] then RefusalMessage(body) else text);
    }
    if stopReason == Ascii("pause_turn") {
      return Paused;
    }
    return Finished;
  }

  // ---------- Replies as JSON ----------

  ghost predicate FirstField(fields: seq<Field>, key: Bytes, i: int) {
    0 <= i < |fields| && fields[i].key == key && forall j :: 0 <= j < i ==> fields[j].key != key
  }

  /** The first field of that name has that value. */
  ghost predicate Has(v: Json, key: string, value: Json) {
    v.Object? && exists i :: FirstField(v.fields, Ascii(key), i) && v.fields[i].value == value
  }

  /** c are the blocks of an answer: its `content`, or none if that is not an array. */
  ghost predicate BlocksAre(body: Json, c: seq<Json>) {
    if exists d :: Has(body, "content", Array(d)) then Has(body, "content", Array(c)) else c == []
  }

  /** t is the text of a block of type `text`, and nothing for any other block. */
  ghost predicate BlockSays(block: Json, t: Bytes) {
    if Has(block, "type", Text(Ascii("text"))) && exists u :: Has(block, "text", Text(u))
    then Has(block, "text", Text(t)) else t == []
  }

  /** t is what the blocks say, one after another. */
  ghost predicate Says(c: seq<Json>, t: Bytes) {
    if c == [] then t == []
    else exists n :: 0 <= n <= |t| && BlockSays(c[0], t[..n]) && Says(c[1..], t[n..])
  }

  ghost predicate ReplySays(reply: Reply, t: Bytes) {
    reply.Body? && exists c :: BlocksAre(reply.value, c) && Says(c, t)
  }

  /** t is what the answers say, one after another. */
  ghost predicate AnswersSay(replies: seq<Reply>, t: Bytes) {
    if replies == [] then t == []
    else
      var last := |replies| - 1;
      exists k :: 0 <= k <= |t| && AnswersSay(replies[..last], t[..k]) && ReplySays(replies[last], t[k..])
  }

  /** The message repeats the reply: role assistant, and the reply's own blocks. */
  ghost predicate Repeats(message: Json, reply: Reply) {
    && reply.Body?
    && exists c :: BlocksAre(reply.value, c)
         && message == Object([Field(Ascii("role"), Text(Ascii("assistant"))), Field(Ascii("content"), Array(c))])
  }

  ghost predicate StopsFor(reply: Reply, reason: string) {
    reply.Body? && Has(reply.value, "stop_reason", Text(Ascii(reason)))
  }

  lemma {:induction false} LookupIsFirst(fields: seq<Field>, key: Bytes)
    ensures match Lookup(fields, key)
            case Some(v) => exists i :: FirstField(fields, key, i) && fields[i].value == v
            case None => forall i :: !FirstField(fields, key, i)
  {
    if fields != [] && fields[0].key != key {
      LookupIsFirst(fields[1..], key);
      match Lookup(fields[1..], key)
      case Some(v) =>
        var i :| FirstField(fields[1..], key, i) && fields[1..][i].value == v;
        assert forall j :: 0 < j < i + 1 ==> fields[j] == fields[1..][j - 1];
        assert FirstField(fields, key, i + 1);
      case None =>
        forall i | FirstField(fields, key, i)
          ensures false
        {
          assert forall j :: 0 <= j < i - 1 ==> fields[1..][j] == fields[j + 1];
          assert FirstField(fields[1..], key, i - 1);
        }
    } else if fields != [] {
      assert FirstField(fields, key, 0);
    }
  }

  lemma {:induction false} GetHas(v: Json, key: string, value: Json)
    ensures Has(v, key, value) <==> Get(v, Ascii(key)) == Some(value)
  {
    if v.Object? {
      LookupIsFirst(v.fields, Ascii(key));
    }
  }

  lemma {:induction false} ContentReads(body: Json)
    ensures BlocksAre(body, Content(body))
  {
    var content := Get(body, Ascii("content"));
    forall d
      ensures Has(body, "content", Array(d)) <==> content == Some(Array(d))
    {
      GetHas(body, "content", Array(d));
    }
    assert content.Some? && content.value.Array? ==> Has(body, "content", Array(content.value.values));
  }

  function BlockText(block: Json): Bytes {
    if AsText(Get(block, Ascii("type"))) == Some(Ascii("text")) then AsText(Get(block, Ascii("text"))).GetOr([]) else []
  }

  lemma {:induction false} BlockReads(block: Json)
    ensures BlockSays(block, BlockText(block))
  {
    GetHas(block, "type", Text(Ascii("text")));
    var text := Get(block, Ascii("text"));
    forall u
      ensures Has(block, "text", Text(u)) <==> text == Some(Text(u))
    {
      GetHas(block, "text", Text(u));
    }
    assert text.Some? && text.value.Text? ==> Has(block, "text", Text(text.value.utf8));
  }

  lemma {:induction false} ExtractReads(c: seq<Json>)
    ensures Says(c, ExtractText(c))
  {
    if c != [] {
      var first, t := BlockText(c[0]), ExtractText(c);
      BlockReads(c[0]);
      ExtractReads(c[1..]);
      assert t == first + ExtractText(c[1..]);
      assert t[..|first|] == first && t[|first|..] == ExtractText(c[1..]);
    }
  }

  lemma {:induction false} ReplyReads(body: Json)
    ensures ReplySays(Body(body), ExtractText(Content(body)))
  {
    ContentReads(body);
    ExtractReads(Content(body));
  }

  lemma {:induction false} OneMoreAnswer(replies: seq<Reply>, n: nat, before: Bytes, said: Bytes)
    requires 0 < n <= |replies| && AnswersSay(replies[..n - 1], before) && ReplySays(replies[n - 1], said)
    ensures AnswersSay(replies[..n], before + said)
  {
    var t, more := before + said, replies[..n];
    assert t[..|before|] == before && t[|before|..] == said;
    assert more[..n - 1] == replies[..n - 1] && more[n - 1] == replies[n - 1];
  }

  lemma {:induction false} TextsAdd(replies: seq<Reply>, n: nat)
    requires 0 < n <= |replies| && forall i :: 0 <= i < n ==> replies[i].Body?
    ensures Texts(replies, n) == Texts(replies, n - 1) + ExtractText(Content(replies[n - 1].value))
  {
  }

  lemma {:induction false} TextsRead(replies: seq<Reply>, n: nat)
    requires n <= |replies| && forall i :: 0 <= i < n ==> replies[i].Body?
    ensures AnswersSay(replies[..n], Texts(replies, n))
  {
    if n > 0 {
      TextsRead(replies, n - 1);
      ReplyReads(replies[n - 1].value);
      OneMoreAnswer(replies, n, Texts(replies, n - 1), ExtractText(Content(replies[n - 1].value)));
      TextsAdd(replies, n);
    }
  }

  lemma {:induction false} JudgeReads(reply: Reply)
    ensures Judge(reply).Paused? <==> StopsFor(reply, "pause_turn")
    ensures Judge(reply).Declined? <==> StopsFor(reply, "refusal")
    ensures Judge(reply).Broken? <==> reply.Lost?
  {
    if reply.Body? {
      GetHas(reply.value, "stop_reason", Text(Ascii("pause_turn")));
      GetHas(reply.value, "stop_reason", Text(Ascii("refusal")));
      assert Ascii("pause_turn")[0] != Ascii("refusal")[0];
    }
  }

  lemma {:induction false} MessageRepeats(reply: Reply)
    requires reply.Body?
    ensures Repeats(Message("assistant", Content(reply.value)), reply)
  {
    ContentReads(reply.value);
  }

  // ---------- What the exchange guarantees ----------

  /** A request is followed by another exactly if it is one of the first five and its answer pauses;
      the next one repeats it, with the paused answer added block for block. */
  lemma {:induction false} RequestsGrow(history: seq<Json>, user: Json, replies: seq<Reply>,
                                        sent: seq<seq<Json>>, result: ChatResult, i: nat)
    requires Outcome(history, user, replies, sent, result) && i < |sent|
    ensures sent[0] == history + [user]
    ensures i + 1 < |sent| <==> i < 5 && StopsFor(ReplyAt(replies, i), "pause_turn")
    ensures i + 1 < |sent| ==>
      exists message :: Repeats(message, replies[i]) && sent[i + 1] == sent[i] + [message]
  {
    JudgeReads(ReplyAt(replies, i));
    if i + 1 < |sent| {
      MessageRepeats(replies[i]);
      OneMoreAssistant(replies, i);
    }
  }

  /** A successful turn is exactly what was said: history and turn are the last request's messages
      and the final answer, and the text shown is what the answers say. */
  lemma {:induction false} TurnReplaysExchange(history: seq<Json>, user: Json, replies: seq<Reply>,
                                               sent: seq<seq<Json>>, result: ChatResult)
    requires Outcome(history, user, replies, sent, result) && result.Answered?
    ensures |sent| <= |replies|
    ensures exists message :: Repeats(message, replies[|sent| - 1])
              && history + result.turnItems == sent[|sent| - 1] + [message]
    ensures AnswersSay(replies[..|sent|], result.text)
  {
    AnsweredBy(history, user, replies, sent, result);
    MessageRepeats(replies[|sent| - 1]);
    TextsRead(replies, |sent|);
  }

  lemma {:induction false} AnsweredBy(history: seq<Json>, user: Json, replies: seq<Reply>,
                                      sent: seq<seq<Json>>, result: ChatResult)
    requires Outcome(history, user, replies, sent, result) && result.Answered?
    ensures |sent| <= |replies| && (forall i :: 0 <= i < |sent| ==> replies[i].Body?)
    ensures result.text == Texts(replies, |sent|)
    ensures history + result.turnItems
         == sent[|sent| - 1] + [Message("assistant", Content(replies[|sent| - 1].value))]
  {
    var last := |sent| - 1;
    AllAnswered(history, user, replies, sent, result);
    OneMoreAssistant(replies, last);
    Reordered(history, [user], Assistants(replies, last), [Message("assistant", Content(replies[last].value))]);
  }

  lemma {:induction false} AllAnswered(history: seq<Json>, user: Json, replies: seq<Reply>,
                                       sent: seq<seq<Json>>, result: ChatResult)
    requires Outcome(history, user, replies, sent, result) && result.Answered?
    ensures |sent| <= |replies| && forall i :: 0 <= i < |sent| ==> replies[i].Body?
    ensures sent[|sent| - 1] == history + [user] + Assistants(replies, |sent| - 1)
    ensures result == Answered(Texts(replies, |sent|), [user] + Assistants(replies, |sent|))
  {
    assert Judge(ReplyAt(replies, |sent| - 1)).Finished?;
  }

  lemma {:induction false} Reordered<T>(a: seq<T>, b: seq<T>, c: seq<T>, d: seq<T>)
    ensures a + (b + (c + d)) == a + b + c + d
  {
  }

  /** How the exchange ends is up to the last answer: none, a refusal, a pause once too often, or a
      success. */
  lemma {:induction false} LastReplyDecides(history: seq<Json>, user: Json, replies: seq<Reply>,
                                            sent: seq<seq<Json>>, result: ChatResult)
    requires Outcome(history, user, replies, sent, result)
    ensures var last := ReplyAt(replies, |sent| - 1);
      && (result == Failed(RequestFailed) <==> last.Lost?)
      && (result.Failed? && result.error.Refusal? <==> StopsFor(last, "refusal"))
      && (result == Failed(ContinuationLimit) <==> StopsFor(last, "pause_turn"))
      && (result.Answered? <==> last.Body? && !StopsFor(last, "refusal") && !StopsFor(last, "pause_turn"))
  {
    JudgeReads(ReplyAt(replies, |sent| - 1));
  }

  /** A refusal is reported in the answer's own words if it has any, else by its explanation. */
  lemma {:induction false} RefusalIsReported(history: seq<Json>, user: Json, replies: seq<Reply>,
                                             sent: seq<seq<Json>>, result: ChatResult, details: Json, words: Bytes)
    requires Outcome(history, user, replies, sent, result)
    requires StopsFor(ReplyAt(replies, |sent| - 1), "refusal")
    ensures result.Failed? && result.error.Refusal?
    ensures var body := replies[|sent| - 1].value;
      exists c, t :: BlocksAre(body, c) && Says(c, t)
        && (t != [] ==> result.error.message == t)
        && (t == [] && Has(body, "stop_details", details) && Has(details, "explanation", Text(words)) ==>
              result.error.message == words)
  {
    var reply := ReplyAt(replies, |sent| - 1);
    JudgeReads(reply);
    var body := replies[|sent| - 1].value;
    var c := Content(body);
    ContentReads(body);
    ExtractReads(c);
    GetHas(body, "stop_details", details);
    GetHas(details, "explanation", Text(words));
    assert BlocksAre(body, c) && Says(c, ExtractText(c));
  }

  /** The replies alone decide what is sent and returned. */
  lemma {:induction false} OutcomeIsDetermined(history: seq<Json>, user: Json, replies: seq<Reply>,
                                               sent: seq<seq<Json>>, result: ChatResult,
                                               sent': seq<seq<Json>>, result': ChatResult)
    requires Outcome(history, user, replies, sent, result)
    requires Outcome(history, user, replies, sent', result')
    ensures sent == sent' && result == result'
  {
  }

  // ---------- The next turn ----------

  function Bodies(items: seq<Rooms.Item>): seq<Json> {
    seq(|items|, i requires 0 <= i < |items| => items[i].body)
  }

  function Logged(bodies: seq<Json>, serial: nat): Rooms.Turn {
    seq(|bodies|, i requires 0 <= i < |bodies| => Rooms.Item(bodies[i], Rooms.Anthropic, serial))
  }

  ghost predicate NoEmptyTurns(turns: seq<Rooms.Turn>) {
    forall i :: 0 <= i < |turns| ==> turns[i] != []
  }

  /** What the room forgets of these turns had no items. */
  ghost predicate ForgetsOnlyEmpty(turns: seq<Rooms.Turn>) {
    forall i :: 0 <= i < |turns| - |Rooms.Window(turns)| ==> turns[i] == []
  }

  /** The window after one more turn holds the previous history and that turn exactly if nothing but
      empty turns is forgotten. */
  lemma {:induction false} HistoryGrows(log: seq<Rooms.Turn>, items: seq<Json>, serial: nat)
    ensures var turn := Logged(items, serial);
      var grown := Bodies(Rooms.Flatten(Rooms.Window(log))) + items;
      var later := Bodies(Rooms.Flatten(Rooms.Window(log + [turn])));
      later == grown <==> ForgetsOnlyEmpty(Rooms.Window(log) + [turn])
  {
    var turn, window := Logged(items, serial), Rooms.Window(log);
    Rooms.WindowIsIncremental(log, turn);
    Rooms.FlattenAppend(window, turn);
    assert Bodies(Rooms.Flatten(window) + turn) == Bodies(Rooms.Flatten(window)) + items;
    ForgettingShortens(window + [turn]);
  }

  /** In chat mode, after a turn that is not interrupted, the next request begins with the whole
      previous exchange, verbatim, exactly when the room forgets nothing but turns without items: if
      no remembered turn is empty, exactly when it can keep them all. */
  lemma {:induction false} NextTurnExtends(
      s: RoomProtocol.State, room: Rooms.RoomView, user: Json, replies: seq<Reply>, serial: nat,
      sent: seq<seq<Json>>, result: ChatResult)
    requires room.wireFormat == Some(Rooms.Anthropic) && room.settings.mode == Rooms.Chat
    requires Outcome(Bodies(room.History()), user, replies, sent, result) && result.Answered?
    requires s.room == Some(room.Commit(room.Generation(), Rooms.Anthropic, Logged(result.turnItems, serial)))
    ensures var next := RoomProtocol.Step(s, RoomProtocol.Begin(Rooms.Anthropic)).sent[|s.sent|];
      var turns := Rooms.Window(room.log) + [Logged(result.turnItems, serial)];
      && |sent| <= |replies|
      && (exists message :: Repeats(message, replies[|sent| - 1])
            && (Bodies(next.history) == sent[|sent| - 1] + [message] <==> ForgetsOnlyEmpty(turns)))
      && (NoEmptyTurns(turns) ==> (ForgetsOnlyEmpty(turns) <==> Rooms.Fits(turns)))
  {
    var turn := Logged(result.turnItems, serial);
    var history := Bodies(room.History());
    TurnReplaysExchange(history, user, replies, sent, result);
    var message :| Repeats(message, replies[|sent| - 1])
                   && history + result.turnItems == sent[|sent| - 1] + [message];
    HistoryGrows(room.log, result.turnItems, serial);
    RoomProtocol.RequestsCarryHistory(s, Rooms.Anthropic);
    FullTurnsAreForgottenWhole(Rooms.Window(room.log) + [turn]);
  }

  lemma {:induction false} FullTurnsAreForgottenWhole(turns: seq<Rooms.Turn>)
    ensures NoEmptyTurns(turns) ==> (ForgetsOnlyEmpty(turns) <==> Rooms.Fits(turns))
  {
    Rooms.WindowIsLongestFittingSuffix(turns, 0);
    if !Rooms.Fits(turns) && ForgetsOnlyEmpty(turns) {
      assert |Rooms.Window(turns)| < |turns| && turns[0] == [];
    }
  }

  lemma {:induction false} ForgettingShortens(turns: seq<Rooms.Turn>)
    ensures |Rooms.Window(turns)| <= |turns|
    ensures if ForgetsOnlyEmpty(turns) then Rooms.Flatten(Rooms.Window(turns)) == Rooms.Flatten(turns)
            else |Rooms.Flatten(Rooms.Window(turns))| < |Rooms.Flatten(turns)|
  {
    if !Rooms.Fits(turns) {
      ForgettingShortens(turns[1..]);
      var forgotten := |turns| - |Rooms.Window(turns)|;
      assert ForgetsOnlyEmpty(turns) <==> turns[0] == [] && ForgetsOnlyEmpty(turns[1..]) by {
        assert forall i :: 0 <= i < forgotten - 1 ==> turns[1..][i] == turns[i + 1];
        assert forall i :: 0 < i < forgotten ==> turns[i] == turns[1..][i - 1];
      }
    }
  }
}
