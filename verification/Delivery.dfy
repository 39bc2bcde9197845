/** Delivering a message in parts: rich first, then HTML, then plain text, against a server that may
    refuse any request. */
module Delivery {
  import opened Prelude
  import opened Text
  import opened Chunking

  const RICH_CHUNK_SIZE := 32000
  const TEXT_CHUNK_SIZE := 3900

  /** An HTML request carries the conversion of its source, a plain one the source itself. */
  datatype Request = Rich(source: string) | Html(source: string) | Plain(source: string)

  /** A refusal says by its wording which fallbacks it allows. */
  datatype Answer = Accepted | Refused(rich: bool, html: bool)

  /** The requests made, and whether the delivery succeeded. */
  datatype Outcome = Outcome(requests: seq<Request>, ok: bool)

  /** What the server answers to request after request; once it answers no more, requests fail. */
  type Server = seq<Answer>

  function Reply(server: Server, n: nat): Answer {
    if n < |server| then server[n] else Refused(false, false)
  }

  /** The next step after one that may have failed. */
  function Then(first: Outcome, rest: Outcome): Outcome {
    if first.ok then Outcome(first.requests + rest.requests, rest.ok) else first
  }

  /** One part as HTML, or as plain text if the server cannot parse the HTML. */
  function LegacyPart(server: Server, part: string, n: nat): Outcome {
    var html := [Html(part)];
    match Reply(server, n)
    case Accepted => Outcome(html, true)
    case Refused(_, fallback) =>
      if fallback then Outcome(html + [Plain(part)], Reply(server, n + 1).Accepted?) else Outcome(html, false)
  }

  /** The first k parts, one after another until one fails. */
  function LegacyParts(server: Server, parts: seq<string>, k: nat, n: nat): Outcome
    requires k <= |parts|
  {
    if k == 0 then Outcome([], true)
    else
      var before := LegacyParts(server, parts, k - 1, n);
      Then(before, LegacyPart(server, parts[k - 1], n + |before.requests|))
  }

  function AllLegacy(server: Server, parts: seq<string>, n: nat): Outcome {
    LegacyParts(server, parts, |parts|, n)
  }

  ghost function RichPart(server: Server, part: string, n: nat): Outcome {
    match Reply(server, n)
    case Accepted => Outcome([Rich(part)], true)
    case Refused(fallback, _) =>
      if fallback then Then(Outcome([Rich(part)], true), AllLegacy(server, Chunks(part, TEXT_CHUNK_SIZE), n + 1))
      else Outcome([Rich(part)], false)
  }

  ghost function RichParts(server: Server, parts: seq<string>, k: nat, n: nat): Outcome
    requires k <= |parts|
  {
    if k == 0 then Outcome([], true)
    else
      var before := RichParts(server, parts, k - 1, n);
      Then(before, RichPart(server, parts[k - 1], n + |before.requests|))
  }

  function Message(text: string): (message: string)
    ensures message != ""
  {
    var trimmed := Trim(text, IsWhitespace);
    if trimmed == "" then "(empty response)" else trimmed
  }

  ghost function Delivered(server: Server, text: string, n: nat): Outcome {
    var parts := Chunks(Message(text), RICH_CHUNK_SIZE);
    RichParts(server, parts, |parts|, n)
  }

  // ---------- The program ----------

  class Telegram {
    const server: Server
    var sent: seq<Request>

    constructor (server: Server)
      ensures this.server == server && sent == []
    {
      this.server := server;
      sent := [];
    }

    /** `outcome` is what was sent since the log was `before`. */
    ghost predicate Sent(before: seq<Request>, outcome: Outcome, ok: bool)
      reads this`sent
    {
      sent == before + outcome.requests && ok == outcome.ok
    }

    method PostJson(request: Request) returns (reply: Answer)
      modifies this`sent
      ensures sent == old(sent) + [request] && reply == Reply(server, |old(sent)|)
    {
      reply := Reply(server, |sent|);
      sent := sent + [request];
    }

    method SendLegacyMessagePart(part: string) returns (ok: bool)
      modifies this`sent
      ensures Sent(old(sent), LegacyPart(server, part, |old(sent)|), ok)
    {
      var reply := PostJson(Html(part));
      if reply.Accepted? {
        return true;
      }
      if !reply.html {
        return false;
      }
      reply := PostJson(Plain(part));
      return reply.Accepted?;
    }

    method SendLegacyParts(parts: seq<string>) returns (ok: bool)
      modifies this`sent
      ensures Sent(old(sent), AllLegacy(server, parts, |old(sent)|), ok)
    {
      for i := 0 to |parts|
        invariant Sent(old(sent), LegacyParts(server, parts, i, |old(sent)|), true)
      {
        var partOk := SendLegacyMessagePart(parts[i]);
        if !partOk {
          LegacyStops(server, parts, i + 1, |parts|, |old(sent)|);
          return false;
        }
      }
      return true;
    }

    method SendRichPart(part: string) returns (ok: bool)
      modifies this`sent
      ensures Sent(old(sent), RichPart(server, part, |old(sent)|), ok)
    {
      var reply := PostJson(Rich(part));
      if reply.Accepted? {
        return true;
      }
      if !reply.rich {
        return false;
      }
      var legacy := ChunkText(part, TEXT_CHUNK_SIZE);
      ChunkingIsUnique(part, TEXT_CHUNK_SIZE, legacy, Chunks(part, TEXT_CHUNK_SIZE));
      ok := SendLegacyParts(legacy);
    }

    lemma {:induction false} SentNext(start: seq<Request>, before: seq<Request>, parts: seq<string>, i: nat, ok: bool)
      requires i < |parts|
      requires var done := RichParts(server, parts, i, |start|);
        done.ok && before == start + done.requests
      requires Sent(before, RichPart(server, parts[i], |before|), ok)
      ensures Sent(start, RichParts(server, parts, i + 1, |start|), ok)
    {
    }

    method SendRichParts(parts: seq<string>) returns (ok: bool)
      modifies this`sent
      ensures Sent(old(sent), RichParts(server, parts, |parts|, |old(sent)|), ok)
    {
      for i := 0 to |parts|
        invariant Sent(old(sent), RichParts(server, parts, i, |old(sent)|), true)
      {
        ghost var before := sent;
        var partOk := SendRichPart(parts[i]);
        SentNext(old(sent), before, parts, i, partOk);
        if !partOk {
          RichStops(server, parts, i + 1, |parts|, |old(sent)|);
          return false;
        }
      }
      return true;
    }

    method SendMessage(text: string) returns (ok: bool)
      modifies this`sent
      ensures Sent(old(sent), Delivered(server, text, |old(sent)|), ok)
    {
      var trimmed := Trim(text, IsWhitespace);
      var message := if trimmed == "" then "(empty response)" else trimmed;
      var parts := ChunkText(message, RICH_CHUNK_SIZE);
      ChunkingIsUnique(message, RICH_CHUNK_SIZE, parts, Chunks(message, RICH_CHUNK_SIZE));
      ok := SendRichParts(parts);
    }
  }

  lemma {:induction false} LegacyStops(server: Server, parts: seq<string>, i: nat, k: nat, n: nat)
    requires i <= k <= |parts| && !LegacyParts(server, parts, i, n).ok
    ensures LegacyParts(server, parts, k, n) == LegacyParts(server, parts, i, n)
  {
    if i < k {
      LegacyStops(server, parts, i, k - 1, n);
    }
  }

  lemma {:induction false} RichStops(server: Server, parts: seq<string>, i: nat, k: nat, n: nat)
    requires i <= k <= |parts| && !RichParts(server, parts, i, n).ok
    ensures RichParts(server, parts, k, n) == RichParts(server, parts, i, n)
  {
    if i < k {
      RichStops(server, parts, i, k - 1, n);
    }
  }

  // ---------- What arrives ----------

  /** The source texts of the accepted requests, in order; the first request is number n. */
  function Arrived(server: Server, requests: seq<Request>, n: nat): seq<string> {
    if requests == [] then []
    else (if Reply(server, n).Accepted? then [requests[0].source] else []) + Arrived(server, requests[1..], n + 1)
  }

  /** Success delivers exactly the text, failure a part of it from the start. */
  ghost predicate Faithful(server: Server, outcome: Outcome, text: string, n: nat) {
    var arrived := Concat(Arrived(server, outcome.requests, n));
    if outcome.ok then arrived == text else arrived <= text
  }

  lemma {:induction false} ArrivedConcat(server: Server, a: seq<Request>, b: seq<Request>, n: nat)
    ensures Arrived(server, a + b, n) == Arrived(server, a, n) + Arrived(server, b, n + |a|)
  {
    if a == [] {
      assert a + b == b;
    } else {
      assert (a + b)[1..] == a[1..] + b;
      ArrivedConcat(server, a[1..], b, n + 1);
    }
  }

  lemma {:induction false} ConcatJoin(a: seq<string>, b: seq<string>)
    ensures Concat(a + b) == Concat(a) + Concat(b)
  {
    if a == [] {
      assert a + b == b;
    } else {
      assert (a + b)[1..] == a[1..] + b;
      ConcatJoin(a[1..], b);
    }
  }

  /** Sending one text after another. */
  lemma {:induction false} FaithfulThen(server: Server, first: Outcome, a: string, rest: Outcome, b: string, n: nat)
    requires Faithful(server, first, a, n)
    requires Faithful(server, rest, b, n + |first.requests|)
    ensures Faithful(server, Then(first, rest), a + b, n)
  {
    ArrivedConcat(server, first.requests, rest.requests, n);
    ConcatJoin(Arrived(server, first.requests, n), Arrived(server, rest.requests, n + |first.requests|));
  }

  lemma {:induction false} LegacyPartFaithful(server: Server, part: string, n: nat)
    ensures Faithful(server, LegacyPart(server, part, n), part, n)
  {
    var html := Html(part);
    assert [html, Plain(part)][1..] == [Plain(part)];
    assert Arrived(server, [Plain(part)], n + 1) == if Reply(server, n + 1).Accepted? then [part] else [];
    assert Arrived(server, [html], n) == if Reply(server, n).Accepted? then [part] else [];
    assert Concat([part]) == part + Concat([]) == part;
  }

  lemma {:induction false} ConcatOneMore(parts: seq<string>, k: nat)
    requires 0 < k <= |parts|
    ensures Concat(parts[..k]) == Concat(parts[..k - 1]) + parts[k - 1]
  {
    assert parts[..k] == parts[..k - 1] + [parts[k - 1]];
    ConcatJoin(parts[..k - 1], [parts[k - 1]]);
    assert Concat([parts[k - 1]]) == parts[k - 1] + Concat([]);
  }

  lemma {:induction false} LegacyPartsFaithful(server: Server, parts: seq<string>, k: nat, n: nat)
    requires k <= |parts|
    ensures Faithful(server, LegacyParts(server, parts, k, n), Concat(parts[..k]), n)
  {
    if k > 0 {
      var before := LegacyParts(server, parts, k - 1, n);
      var m := n + |before.requests|;
      LegacyPartsFaithful(server, parts, k - 1, n);
      LegacyPartFaithful(server, parts[k - 1], m);
      FaithfulThen(server, before, Concat(parts[..k - 1]), LegacyPart(server, parts[k - 1], m), parts[k - 1], n);
      ConcatOneMore(parts, k);
    }
  }

  lemma {:induction false} RichPartFaithful(server: Server, part: string, n: nat)
    ensures Faithful(server, RichPart(server, part, n), part, n)
  {
    assert Arrived(server, [Rich(part)], n) == if Reply(server, n).Accepted? then [part] else [];
    assert Concat([part]) == part + Concat([]) == part;
    if Reply(server, n).Refused? && Reply(server, n).rich {
      var chunks := Chunks(part, TEXT_CHUNK_SIZE);
      ChunksConcatenate(part, TEXT_CHUNK_SIZE, chunks);
      LegacyPartsFaithful(server, chunks, |chunks|, n + 1);
      assert chunks[..|chunks|] == chunks;
      FaithfulThen(server, Outcome([Rich(part)], true), "", AllLegacy(server, chunks, n + 1), part, n);
      assert "" + part == part;
    }
  }

  lemma {:induction false} RichPartsFaithful(server: Server, parts: seq<string>, k: nat, n: nat)
    requires k <= |parts|
    ensures Faithful(server, RichParts(server, parts, k, n), Concat(parts[..k]), n)
  {
    if k > 0 {
      var before := RichParts(server, parts, k - 1, n);
      var m := n + |before.requests|;
      RichPartsFaithful(server, parts, k - 1, n);
      RichPartFaithful(server, parts[k - 1], m);
      FaithfulThen(server, before, Concat(parts[..k - 1]), RichPart(server, parts[k - 1], m), parts[k - 1], n);
      ConcatOneMore(parts, k);
    }
  }

  lemma {:induction false} MessageIsDelivered(server: Server, text: string, n: nat)
    ensures Faithful(server, Delivered(server, text, n), Message(text), n)
  {
    var parts := Chunks(Message(text), RICH_CHUNK_SIZE);
    ChunksConcatenate(Message(text), RICH_CHUNK_SIZE, parts);
    RichPartsFaithful(server, parts, |parts|, n);
    assert parts[..|parts|] == parts;
  }

  /** Whatever the server answers: let m be the text without the white space around it, or a note if
      nothing else is there. After success the accepted parts, in order, are m; after an error they
      are a beginning of it. */
  lemma {:induction false} DeliveryIsFaithful(server: Server, text: string, n: nat)
    ensures var outcome := Delivered(server, text, n);
      var arrived := Concat(Arrived(server, outcome.requests, n));
      exists m :: TrimsTo(text, m, IsWhitespace)
        && var message := if m == "" then "(empty response)" else m;
           if outcome.ok then arrived == message else arrived <= message
  {
    MessageIsDelivered(server, text, n);
    TrimIsTrimsTo(text, IsWhitespace);
  }

  /** A message that fits is tried as one rich request, and a part that fits as one HTML request. */
  lemma {:induction false} ShortMessagesStayWhole(server: Server, text: string, m: string, n: nat)
    requires TrimsTo(text, m, IsWhitespace) && 0 < |m| <= 32000
    ensures var requests := Delivered(server, text, n).requests;
      && requests != [] && requests[0] == Rich(m)
      && (|requests| > 1 && |m| <= 3900 ==> requests[1] == Html(m))
  {
    TrimIsTrimsTo(text, IsWhitespace);
    OneTrim(text, m, Trim(text, IsWhitespace), IsWhitespace);
    SmallIsOnePart(m, RICH_CHUNK_SIZE);
    RichPartsOfOne(server, m, n);
    RichPartBegins(server, m, n);
    assert Delivered(server, text, n) == RichPart(server, m, n);
  }

  lemma {:induction false} RichPartBegins(server: Server, m: string, n: nat)
    requires m != ""
    ensures var requests := RichPart(server, m, n).requests;
      && requests != [] && requests[0] == Rich(m)
      && (|requests| > 1 && |m| <= 3900 ==> requests[1] == Html(m))
  {
    if Reply(server, n).Refused? && Reply(server, n).rich && |m| <= 3900 {
      SmallIsOnePart(m, TEXT_CHUNK_SIZE);
      LegacyPartsOfOne(server, m, n + 1);
      LegacyPartOrderly(server, m, n + 1);
      assert AllLegacy(server, Chunks(m, TEXT_CHUNK_SIZE), n + 1) == LegacyPart(server, m, n + 1);
    }
  }

  lemma {:induction false} LegacyPartsOfOne(server: Server, m: string, n: nat)
    ensures LegacyParts(server, [m], 1, n) == LegacyPart(server, m, n)
  {
    assert LegacyParts(server, [m], 0, n) == Outcome([], true);
    ThenNothing(LegacyPart(server, m, n));
  }

  lemma {:induction false} SmallIsOnePart(m: string, size: nat)
    requires 0 < |m| <= size
    ensures Chunks(m, size) == [m]
  {
  }

  lemma {:induction false} RichPartsOfOne(server: Server, m: string, n: nat)
    ensures RichParts(server, [m], 1, n) == RichPart(server, m, n)
  {
    assert RichParts(server, [m], 0, n) == Outcome([], true);
    ThenNothing(RichPart(server, m, n));
  }

  // ---------- What is sent ----------

  /** Sizes keep to the limits and nothing empty is sent. */
  predicate Fits(request: Request) {
    && request.source != ""
    && |request.source| <= (if request.Rich? then 32000 else 3900)
  }

  ghost predicate AllFit(requests: seq<Request>) {
    forall i :: 0 <= i < |requests| ==> Fits(requests[i])
  }

  lemma {:induction false} LegacyPartFits(server: Server, part: string, n: nat)
    requires part != "" && |part| <= TEXT_CHUNK_SIZE
    ensures AllFit(LegacyPart(server, part, n).requests)
  {
  }

  lemma {:induction false} LegacyPartsFit(server: Server, parts: seq<string>, k: nat, n: nat)
    requires k <= |parts| && forall i :: 0 <= i < k ==> parts[i] != "" && |parts[i]| <= TEXT_CHUNK_SIZE
    ensures AllFit(LegacyParts(server, parts, k, n).requests)
  {
    if k > 0 {
      LegacyPartsFit(server, parts, k - 1, n);
      LegacyPartFits(server, parts[k - 1], n + |LegacyParts(server, parts, k - 1, n).requests|);
    }
  }

  lemma {:induction false} RichPartsFit(server: Server, parts: seq<string>, k: nat, n: nat)
    requires k <= |parts| && forall i :: 0 <= i < k ==> parts[i] != "" && |parts[i]| <= RICH_CHUNK_SIZE
    ensures AllFit(RichParts(server, parts, k, n).requests)
  {
    if k > 0 {
      RichPartsFit(server, parts, k - 1, n);
      RichPartFits(server, parts[k - 1], n + |RichParts(server, parts, k - 1, n).requests|);
    }
  }

  lemma {:induction false} RichPartFits(server: Server, part: string, n: nat)
    requires part != "" && |part| <= RICH_CHUNK_SIZE
    ensures AllFit(RichPart(server, part, n).requests)
  {
    var chunks := Chunks(part, TEXT_CHUNK_SIZE);
    forall i | 0 <= i < |chunks|
      ensures chunks[i] != "" && |chunks[i]| <= TEXT_CHUNK_SIZE
    {
      ChunksAreNotEmpty(part, TEXT_CHUNK_SIZE, chunks, i);
      ChunksFit(part, TEXT_CHUNK_SIZE, chunks, i);
    }
    LegacyPartsFit(server, chunks, |chunks|, n + 1);
  }

  /** Rich parts stay within 32000 characters and the sources of the others within 3900. */
  lemma {:induction false} DeliveryFits(server: Server, text: string, n: nat)
    ensures AllFit(Delivered(server, text, n).requests)
  {
    var parts := Chunks(Message(text), RICH_CHUNK_SIZE);
    forall i | 0 <= i < |parts|
      ensures parts[i] != "" && |parts[i]| <= RICH_CHUNK_SIZE
    {
      ChunksAreNotEmpty(Message(text), RICH_CHUNK_SIZE, parts, i);
      ChunksFit(Message(text), RICH_CHUNK_SIZE, parts, i);
    }
    RichPartsFit(server, parts, |parts|, n);
  }

  // ---------- Why each request is made ----------

  /** b may follow a, given the answer to a: a fallback is earned by a refusal that allows it and
      starts with the refused text, and no request is made after any other refusal. After an accepted
      request comes the next part, as HTML only if the accepted one was already a fallback. */
  predicate Follows(a: Request, answer: Answer, b: Request) {
    match answer
    case Accepted => b.Rich? || (b.Html? && !a.Rich?)
    case Refused(rich, html) =>
      match a
      case Rich(source) => rich && b.Html? && b.source <= source
      case Html(source) => html && b == Plain(source)
      case Plain(_) => false
  }

  /** An unsuccessful delivery ends with a refusal that allows no fallback of its kind. */
  predicate Ends(a: Request, answer: Answer, ok: bool) {
    match answer
    case Accepted => ok
    case Refused(rich, html) => !ok && (a.Rich? ==> !rich) && (a.Html? ==> !html)
  }

  ghost predicate InOrder(server: Server, requests: seq<Request>, n: nat) {
    forall i :: 0 <= i < |requests| - 1 ==> Follows(requests[i], Reply(server, n + i), requests[i + 1])
  }

  ghost predicate Orderly(server: Server, outcome: Outcome, n: nat) {
    && outcome.requests != []
    && !outcome.requests[0].Plain?
    && InOrder(server, outcome.requests, n)
    && Ends(outcome.requests[|outcome.requests| - 1], Reply(server, n + |outcome.requests| - 1), outcome.ok)
  }

  lemma {:induction false} InOrderConcat(server: Server, a: seq<Request>, b: seq<Request>, n: nat)
    requires a != [] && b != []
    requires InOrder(server, a, n) && InOrder(server, b, n + |a|)
    requires Follows(a[|a| - 1], Reply(server, n + |a| - 1), b[0])
    ensures InOrder(server, a + b, n)
  {
    forall i | 0 <= i < |a + b| - 1
      ensures Follows((a + b)[i], Reply(server, n + i), (a + b)[i + 1])
    {
      if i >= |a| {
        assert Follows(b[i - |a|], Reply(server, n + |a| + (i - |a|)), b[i - |a| + 1]);
      } else if i < |a| - 1 {
        assert Follows(a[i], Reply(server, n + i), a[i + 1]);
      }
    }
  }

  lemma {:induction false} OrderlyThen(server: Server, first: Outcome, rest: Outcome, n: nat)
    requires Orderly(server, first, n) && Orderly(server, rest, n + |first.requests|)
    requires rest.requests[0].Rich? || !first.requests[|first.requests| - 1].Rich?
    ensures Orderly(server, Then(first, rest), n) && Then(first, rest).requests[0] == first.requests[0]
  {
    if first.ok {
      InOrderConcat(server, first.requests, rest.requests, n);
      var whole := first.requests + rest.requests;
      assert whole[|whole| - 1] == rest.requests[|rest.requests| - 1];
    }
  }

  /** Sending one thing more, the first one included. */
  lemma {:induction false} OrderlyNext(server: Server, before: Outcome, next: Outcome, n: nat)
    requires before == Outcome([], true) || Orderly(server, before, n)
    requires Orderly(server, next, n + |before.requests|)
    requires before.requests == [] || next.requests[0].Rich? || !before.requests[|before.requests| - 1].Rich?
    ensures Orderly(server, Then(before, next), n)
    ensures var whole := Then(before, next).requests;
      && whole[0] == (if before.requests == [] then next.requests[0] else before.requests[0])
      && (whole[|whole| - 1] == next.requests[|next.requests| - 1]
          || (before.requests != [] && whole[|whole| - 1] == before.requests[|before.requests| - 1]))
  {
    if before.requests == [] {
      ThenNothing(next);
    } else {
      OrderlyThen(server, before, next, n);
    }
  }

  lemma {:induction false} LegacyPartOrderly(server: Server, part: string, n: nat)
    ensures var sent := LegacyPart(server, part, n);
      && Orderly(server, sent, n) && sent.requests[0] == Html(part)
      && !sent.requests[|sent.requests| - 1].Rich?
  {
  }

  lemma {:induction false} ThenNothing(first: Outcome)
    ensures Then(Outcome([], true), first) == first
  {
  }

  lemma {:induction false} LastLegacyPart(server: Server, parts: seq<string>, k: nat, n: nat)
      returns (before: Outcome, last: Outcome)
    requires 0 < k <= |parts|
    ensures before == LegacyParts(server, parts, k - 1, n) && (k == 1 ==> before == Outcome([], true))
    ensures LegacyParts(server, parts, k, n) == Then(before, last)
    ensures Orderly(server, last, n + |before.requests|)
    ensures last.requests[0] == Html(parts[k - 1]) && !last.requests[|last.requests| - 1].Rich?
  {
    before := LegacyParts(server, parts, k - 1, n);
    last := LegacyPart(server, parts[k - 1], n + |before.requests|);
    LegacyPartOrderly(server, parts[k - 1], n + |before.requests|);
  }

  lemma {:induction false} LegacyPartsOrderly(server: Server, parts: seq<string>, k: nat, n: nat)
    requires 0 < k <= |parts|
    ensures var sent := LegacyParts(server, parts, k, n);
      && Orderly(server, sent, n) && sent.requests[0] == Html(parts[0])
      && !sent.requests[|sent.requests| - 1].Rich?
  {
    var before, last := LastLegacyPart(server, parts, k, n);
    if k > 1 {
      LegacyPartsOrderly(server, parts, k - 1, n);
    }
    OrderlyNext(server, before, last, n);
  }

  lemma {:induction false} RichPartOrderly(server: Server, part: string, n: nat)
    ensures Orderly(server, RichPart(server, part, n), n) && RichPart(server, part, n).requests[0].Rich?
  {
    if Reply(server, n).Refused? && Reply(server, n).rich {
      var chunks := Chunks(part, TEXT_CHUNK_SIZE);
      LegacyPartsOrderly(server, chunks, |chunks|, n + 1);
      var legacy := AllLegacy(server, chunks, n + 1);
      ChunksConcatenate(part, TEXT_CHUNK_SIZE, chunks);
      assert chunks[0] <= part;
      InOrderConcat(server, [Rich(part)], legacy.requests, n);
    }
  }

  lemma {:induction false} LastRichPart(server: Server, parts: seq<string>, k: nat, n: nat)
      returns (before: Outcome, last: Outcome)
    requires 0 < k <= |parts|
    ensures before == RichParts(server, parts, k - 1, n) && (k == 1 ==> before == Outcome([], true))
    ensures RichParts(server, parts, k, n) == Then(before, last)
    ensures Orderly(server, last, n + |before.requests|) && last.requests[0].Rich?
  {
    before := RichParts(server, parts, k - 1, n);
    last := RichPart(server, parts[k - 1], n + |before.requests|);
    RichPartOrderly(server, parts[k - 1], n + |before.requests|);
  }

  lemma {:induction false} RichPartsOrderly(server: Server, parts: seq<string>, k: nat, n: nat)
    requires 0 < k <= |parts|
    ensures Orderly(server, RichParts(server, parts, k, n), n) && RichParts(server, parts, k, n).requests[0].Rich?
  {
    var before, last := LastRichPart(server, parts, k, n);
    if k > 1 {
      RichPartsOrderly(server, parts, k - 1, n);
    }
    OrderlyNext(server, before, last, n);
  }

  /** Every message starts rich; HTML comes only right after a rich refusal that allows it, starting
      with the refused text, or after another fallback was accepted; plain text only right after the
      refusal of the same text as HTML; and nothing after any other refusal. */
  lemma {:induction false} FallbacksAreEarned(server: Server, text: string, n: nat)
    ensures Orderly(server, Delivered(server, text, n), n) && Delivered(server, text, n).requests[0].Rich?
  {
    var parts := Chunks(Message(text), RICH_CHUNK_SIZE);
    RichPartsOrderly(server, parts, |parts|, n);
  }
}
