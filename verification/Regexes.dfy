/** The scanners against the regular expressions of the Python reference implementation: a match is
    a membership in the expression's language, substitution takes the leftmost one, its lazy or
    only possible length, and continues after it. */
module Regexes {
  import opened Prelude
  import opened Text
  import opened Markdown

  // ---------- ```(?:[^\n`]+)?\n([\s\S]*?)``` ----------

  ghost predicate OneLineNoTick(s: string) {
    '\n' !in s && '`' !in s
  }

  /** w is in the language of the expression, with `body` as its group. */
  ghost predicate InFenceLanguage(w: string, info: string, body: string) {
    OneLineNoTick(info) && w == FENCE + info + "\n" + body + FENCE
  }

  ghost predicate FenceMatch(text: string, i: int, j: int, info: string, body: string) {
    0 <= i <= j <= |text| && InFenceLanguage(text[i..j], info, body)
  }

  /** The match substitution takes next: no match starts earlier, none at its start is shorter. */
  ghost predicate FirstFence(text: string, i: int, j: int, info: string, body: string) {
    && FenceMatch(text, i, j, info, body)
    && forall i', j', info', body' :: FenceMatch(text, i', j', info', body') ==> i < i' || (i == i' && j <= j')
  }

  ghost predicate NoFenceMatch(text: string) {
    forall i, j, info, body :: !FenceMatch(text, i, j, info, body)
  }

  /** doc is the text cut by leftmost, lazy, non-overlapping matches. */
  ghost predicate CutByRegex(text: string, doc: Doc) {
    match doc
    case End(tail) => tail == text && NoFenceMatch(text)
    case Block(before, body, rest) =>
      exists i, j, info ::
        FirstFence(text, i, j, info, body) && before == text[..i] && CutByRegex(text[j..], rest)
  }

  lemma {:induction false} FenceWordParts(w: string, info: string, body: string)
    requires InFenceLanguage(w, info, body)
    ensures var start := 3 + |info| + 1;
      && |w| == start + |body| + 3
      && w[0..3] == FENCE && w[3..start - 1] == info && w[start - 1..start] == "\n"
      && w[start..|w| - 3] == body && w[|w| - 3..|w|] == FENCE
  {
  }

  /** The parts of a match inside the text. */
  lemma {:induction false} FenceMatchParts(text: string, i: int, j: int, info: string, body: string)
    requires FenceMatch(text, i, j, info, body)
    ensures var start := i + 3 + |info| + 1;
      && OccursAt(text, FENCE, i) && start + 3 <= j && OccursAt(text, FENCE, j - 3)
      && info == text[i + 3..start - 1] && text[start - 1] == '\n' && body == text[start..j - 3]
  {
    var w := text[i..j];
    var start := 3 + |info| + 1;
    FenceWordParts(w, info, body);
    Sliced(text, i, j, 0, 3);
    Sliced(text, i, j, 3, start - 1);
    Sliced(text, i, j, start - 1, start);
    Sliced(text, i, j, start, |w| - 3);
    Sliced(text, i, j, |w| - 3, |w|);
    assert text[i + start - 1..i + start][0] == '\n';
  }

  lemma {:induction false} Joined(text: string, a: nat, b: nat, c: nat)
    requires a <= b <= c <= |text|
    ensures text[a..c] == text[a..b] + text[b..c]
  {
  }

  lemma {:induction false} PartsMakeFenceMatch(text: string, i: nat, start: nat, close: nat)
    requires i + 3 < start <= close && close + 3 <= |text|
    requires OccursAt(text, FENCE, i) && OccursAt(text, FENCE, close) && text[start - 1] == '\n'
    requires OneLineNoTick(text[i + 3..start - 1])
    ensures FenceMatch(text, i, close + 3, text[i + 3..start - 1], text[start..close])
  {
    var info, body := text[i + 3..start - 1], text[start..close];
    Joined(text, start, close, close + 3);
    Joined(text, start - 1, start, close + 3);
    Joined(text, i + 3, start - 1, close + 3);
    Joined(text, i, i + 3, close + 3);
    assert text[start - 1..start] == ['\n'];
    assert FENCE + (info + (['\n'] + (body + FENCE))) == FENCE + info + ['\n'] + body + FENCE;
  }

  /** The line scan finds exactly the info string of the expression. */
  lemma {:induction false} ContentStartIsInfo(text: string, from: nat)
    requires from <= |text|
    ensures match ContentStart(text, from)
      case Some(start) => text[start - 1] == '\n' && OneLineNoTick(text[from..start - 1])
      case None => forall end :: from <= end < |text| && text[end] == '\n' ==> !OneLineNoTick(text[from..end])
    decreases |text| - from
  {
    if from < |text| && text[from] != '`' && text[from] != '\n' {
      ContentStartIsInfo(text, from + 1);
      var start := ContentStart(text, from + 1);
      if start.Some? {
        assert text[from..start.value - 1] == [text[from]] + text[from + 1..start.value - 1];
      } else {
        forall end | from <= end < |text| && text[end] == '\n'
          ensures !OneLineNoTick(text[from..end])
        {
          assert text[from..end] == [text[from]] + text[from + 1..end];
        }
      }
    } else if from < |text| && text[from] == '`' {
      forall end | from <= end < |text| && text[end] == '\n'
        ensures !OneLineNoTick(text[from..end])
      {
        assert text[from..end][0] == '`';
      }
    }
  }

  lemma {:induction false} InfoIsUnique(text: string, from: nat, a: nat, b: nat)
    requires from <= a < |text| && from <= b < |text| && text[a] == '\n' && text[b] == '\n'
    requires OneLineNoTick(text[from..a]) && OneLineNoTick(text[from..b])
    ensures a == b
  {
    if a < b {
      NewlineInside(text, from, a, b);
    } else if b < a {
      NewlineInside(text, from, b, a);
    }
  }

  lemma {:induction false} NewlineInside(text: string, from: nat, a: nat, end: nat)
    requires from <= a < end <= |text| && text[a] == '\n'
    ensures '\n' in text[from..end]
  {
    assert text[from..end][a - from] == '\n';
  }

  /** Where the expression can match at position i, knowing what the scanner knows. */
  lemma {:induction false} MatchesAt(text: string, i: int, j: int, info: string, body: string)
    requires FenceMatch(text, i, j, info, body)
    ensures i + 3 <= |text|
    ensures ContentStart(text, i + 3) == Some(i + 3 + |info| + 1)
  {
    FenceMatchParts(text, i, j, info, body);
    ContentStartIsInfo(text, i + 3);
    var end := i + 3 + |info|;
    assert OneLineNoTick(text[i + 3..end]);
    var start := ContentStart(text, i + 3);
    InfoIsUnique(text, i + 3, end, start.value - 1);
  }

  /** Below the scanner's position no match starts. */
  lemma {:induction false} NothingBefore(text: string, i: int, j: int, info: string, body: string)
    requires FenceMatch(text, i, j, info, body)
    ensures match NextFence(text)
      case NoFence => false
      case Skip(length) => length <= i
      case Fence(open, start, close) => open < i || (open == i && close + 3 <= j && info == text[open + 3..start - 1])
  {
    FenceMatchParts(text, i, j, info, body);
    FindIsFirst(text, FENCE);
    var open := Find(text, FENCE).value;
    assert open <= i;
    if open == i {
      MatchesAt(text, i, j, info, body);
      var start := ContentStart(text, i + 3).value;
      FindIsFirst(text[start..], FENCE);
      assert text[start..][j - 3 - start..j - start] == text[j - 3..j];
      assert OccursAt(text[start..], FENCE, j - 3 - start);
    }
  }

  lemma {:induction false} ShiftMatch(text: string, skip: nat, i: int, j: int, info: string, body: string)
    requires skip <= |text| && 0 <= i
    ensures FenceMatch(text[skip..], i, j, info, body) <==> FenceMatch(text, skip + i, skip + j, info, body)
  {
    if i <= j && skip + j <= |text| {
      assert text[skip..][i..j] == text[skip + i..skip + j];
    }
  }

  lemma {:induction false} SlicedAfter(text: string, n: nat, i: int, j: int)
    requires n <= |text| && 0 <= i <= j <= |text| - n
    ensures text[..n] + text[n..][..i] == text[..n + i] && text[n..][j..] == text[n + j..]
  {
  }

  lemma {:induction false} NoFenceAfterSkip(text: string, n: nat)
    requires n <= |text| && NoFenceMatch(text[n..])
    requires forall i, j, info, body :: FenceMatch(text, i, j, info, body) ==> n <= i
    ensures NoFenceMatch(text)
  {
    forall i, j, info, body | FenceMatch(text, i, j, info, body)
      ensures false
    {
      ShiftMatch(text, n, i - n, j - n, info, body);
    }
  }

  /** If nothing matches below n, cutting the rest after n cuts the whole text. */
  lemma {:induction false} CutAfterSkip(text: string, n: nat, doc: Doc)
    requires n <= |text| && CutByRegex(text[n..], doc)
    requires forall i, j, info, body :: FenceMatch(text, i, j, info, body) ==> n <= i
    ensures CutByRegex(text, Prepend(text[..n], doc))
  {
    match doc
    case End(tail) =>
      NoFenceAfterSkip(text, n);
      assert text[..n] + text[n..] == text;
    case Block(before, body, rest) =>
      var i, j, info :| FirstFence(text[n..], i, j, info, body) && before == text[n..][..i]
                        && CutByRegex(text[n..][j..], rest);
      ShiftFirst(text, n, i, j, info, body);
      SlicedAfter(text, n, i, j);
      assert FirstFence(text, n + i, n + j, info, body) && CutByRegex(text[n + j..], rest);
  }

  lemma {:induction false} ShiftFirst(text: string, n: nat, i: int, j: int, info: string, body: string)
    requires n <= |text| && FirstFence(text[n..], i, j, info, body)
    requires forall i, j, info, body :: FenceMatch(text, i, j, info, body) ==> n <= i
    ensures FirstFence(text, n + i, n + j, info, body)
  {
    ShiftMatch(text, n, i, j, info, body);
    forall i', j', info', body' | FenceMatch(text, i', j', info', body')
      ensures n + i < i' || (n + i == i' && n + j <= j')
    {
      ShiftMatch(text, n, i' - n, j' - n, info', body');
    }
  }

  /** On every text the hand-written scanner cuts exactly where the regular expression does. */
  lemma {:induction false} ScannerMatchesRegex(text: string)
    ensures CutByRegex(text, Fences(text))
    decreases |text|
  {
    match NextFence(text)
    case NoFence =>
      forall i, j, info, body
        ensures !FenceMatch(text, i, j, info, body)
      {
        if FenceMatch(text, i, j, info, body) {
          NothingBefore(text, i, j, info, body);
        }
      }
    case Skip(length) =>
      forall i, j, info, body | FenceMatch(text, i, j, info, body)
        ensures length <= i
      {
        NothingBefore(text, i, j, info, body);
      }
      ScannerMatchesRegex(text[length..]);
      CutAfterSkip(text, length, Fences(text[length..]));
    case Fence(open, start, close) =>
      ScannedFenceIsFirst(text, open, start, close);
      ScannerMatchesRegex(text[close + 3..]);
  }

  lemma {:induction false} ScannedFenceIsFirst(text: string, open: nat, start: nat, close: nat)
    requires NextFence(text) == Fence(open, start, close)
    ensures FirstFence(text, open, close + 3, text[open + 3..start - 1], text[start..close])
  {
    ScannedFenceMatches(text, open, start, close);
    forall i, j, info, body | FenceMatch(text, i, j, info, body)
      ensures open < i || (open == i && close + 3 <= j)
    {
      NothingBefore(text, i, j, info, body);
    }
  }

  lemma {:induction false} ScannedFenceMatches(text: string, open: nat, start: nat, close: nat)
    requires NextFence(text) == Fence(open, start, close)
    ensures FenceMatch(text, open, close + 3, text[open + 3..start - 1], text[start..close])
  {
    NextFenceIs(text, open, start, close);
    FenceIsBetweenTicks(text, open, start, close);
    PartsMakeFenceMatch(text, open, start, close);
  }

  lemma {:induction false} NextFenceIs(text: string, open: nat, start: nat, close: nat)
    requires NextFence(text) == Fence(open, start, close)
    ensures Find(text, FENCE) == Some(open) && ContentStart(text, open + 3) == Some(start)
    ensures Find(text[start..], FENCE) == Some(close - start)
  {
  }

  lemma {:induction false} FenceIsBetweenTicks(text: string, open: nat, start: nat, close: nat)
    requires open + 3 < start <= close && close + 3 <= |text|
    requires Find(text, FENCE) == Some(open) && ContentStart(text, open + 3) == Some(start)
    requires Find(text[start..], FENCE) == Some(close - start)
    ensures OccursAt(text, FENCE, open) && OccursAt(text, FENCE, close)
    ensures text[start - 1] == '\n' && OneLineNoTick(text[open + 3..start - 1])
  {
    FoundOccurs(text, FENCE, open);
    FoundLater(text, start, close - start);
    ContentStartIsInfo(text, open + 3);
  }

  lemma {:induction false} FoundLater(text: string, start: nat, length: nat)
    requires start <= |text| && Find(text[start..], FENCE) == Some(length)
    ensures OccursAt(text, FENCE, start + length)
  {
    FoundOccurs(text[start..], FENCE, length);
    OccursAfter(text, FENCE, start, length);
  }

  lemma {:induction false} FoundOccurs(s: string, d: string, i: nat)
    requires Find(s, d) == Some(i)
    ensures OccursAt(s, d, i)
  {
    FindIsFirst(s, d);
  }

  lemma {:induction false} OccursAfter(s: string, d: string, from: nat, i: nat)
    requires from <= |s| && OccursAt(s[from..], d, i)
    ensures OccursAt(s, d, from + i)
  {
    Sliced(s, from, |s|, i, i + |d|);
  }

  lemma {:induction false} FirstFenceIsUnique(text: string, i: int, j: int, info: string, body: string,
                                              i': int, j': int, info': string, body': string)
    requires FirstFence(text, i, j, info, body) && FirstFence(text, i', j', info', body')
    ensures i == i' && j == j' && body == body'
  {
    assert i == i' && j == j';
    MatchesAt(text, i, j, info, body);
    MatchesAt(text, i, j, info', body');
    FenceMatchParts(text, i, j, info, body);
    FenceMatchParts(text, i, j, info', body');
  }

  /** The cut is the only one. */
  lemma {:induction false} CutIsUnique(text: string, a: Doc, b: Doc)
    requires CutByRegex(text, a) && CutByRegex(text, b)
    ensures a == b
    decreases a
  {
    if a.Block? && b.Block? {
      var i, j, info :| FirstFence(text, i, j, info, a.body) && a.before == text[..i] && CutByRegex(text[j..], a.rest);
      var i', j', info' :| FirstFence(text, i', j', info', b.body) && b.before == text[..i']
                           && CutByRegex(text[j'..], b.rest);
      FirstFenceIsUnique(text, i, j, info, a.body, i', j', info', b.body);
      CutIsUnique(text[j..], a.rest, b.rest);
    }
  }

  // ---------- `([^`\n]+)` ----------

  const TICK := "`"

  ghost predicate SpanMatch(text: string, i: int, j: int, content: string) {
    && 0 <= i <= j <= |text|
    && content != "" && OneLineNoTick(content) && text[i..j] == TICK + content + TICK
  }

  ghost predicate FirstSpan(text: string, i: int, j: int, content: string) {
    && SpanMatch(text, i, j, content)
    && forall i', j', content' :: SpanMatch(text, i', j', content') ==> i < i' || (i == i' && j <= j')
  }

  ghost predicate CutBySpans(text: string, doc: Doc) {
    match doc
    case End(tail) => tail == text && forall i, j, content :: !SpanMatch(text, i, j, content)
    case Block(before, body, rest) =>
      exists i, j :: FirstSpan(text, i, j, body) && before == text[..i] && CutBySpans(text[j..], rest)
  }

  /** The substitution applied to a cut text. */
  function Marked(doc: Doc, open: string, close: string): string {
    match doc
    case End(tail) => tail
    case Block(before, body, rest) => before + (open + body + close) + Marked(rest, open, close)
  }

  /** What the backtick pass comes to next: a tick to leave alone, or a span. */
  datatype SpanRound = NoTick | Skipped(length: nat) | Found(open: nat, close: nat)

  function NextSpan(text: string): (r: SpanRound)
    ensures r.Skipped? ==> 0 < r.length <= |text|
    ensures r.Found? ==> r.open + 1 < r.close < |text|
  {
    match Find(text, TICK)
    case None => NoTick
    case Some(i) =>
      match Span(text[i + 1..], TICK, '\n')
      case None => Skipped(i + 1)
      case Some(n) => Found(i, i + 1 + n)
  }

  /** The cut the backtick pass makes. */
  function SpanCut(text: string): Doc
    decreases |text|
  {
    match NextSpan(text)
    case NoTick => End(text)
    case Skipped(length) => Prepend(text[..length], SpanCut(text[length..]))
    case Found(open, close) => Block(text[..open], text[open + 1..close], SpanCut(text[close + 1..]))
  }

  lemma {:induction false} PrependMarked(x: string, doc: Doc, open: string, close: string)
    ensures Marked(Prepend(x, doc), open, close) == x + Marked(doc, open, close)
  {
    if doc.Block? {
      assert x + doc.before + (open + doc.body + close) + Marked(doc.rest, open, close)
          == x + (doc.before + (open + doc.body + close) + Marked(doc.rest, open, close));
    }
  }

  lemma {:induction false} TickAndBefore(text: string, i: nat)
    requires Find(text, TICK) == Some(i)
    ensures text[..i] + TICK == text[..i + 1]
  {
    FindIsFirst(text, TICK);
  }

  lemma {:induction false} SplitContent(text: string, i: nat, n: nat)
    requires i + 1 + n < |text|
    ensures text[i + 1..][..n] == text[i + 1..i + 1 + n]
    ensures text[i + 1..][n + 1..] == text[i + 1 + n + 1..]
  {
  }

  lemma {:induction false} RoundSkipped(text: string, i: nat, open: string, close: string)
    requires Find(text, TICK) == Some(i) && Span(text[i + 1..], TICK, '\n') == None
    ensures NextSpan(text) == Skipped(i + 1)
    ensures DelimitedRound(text, TICK, '\n', open, close) == More(text[..i + 1], text[i + 1..])
  {
    TickAndBefore(text, i);
  }

  lemma {:induction false} RoundFound(text: string, i: nat, n: nat, open: string, close: string)
    requires Find(text, TICK) == Some(i) && Span(text[i + 1..], TICK, '\n') == Some(n)
    ensures NextSpan(text) == Found(i, i + 1 + n)
    ensures DelimitedRound(text, TICK, '\n', open, close)
         == More(text[..i] + (open + text[i + 1..i + 1 + n] + close), text[i + 1 + n + 1..])
  {
    TickAndBefore(text, i);
    RoundAt(text, i, Some(n), open, close);
  }

  lemma {:induction false} RoundIsNextSpan(text: string, open: string, close: string)
    ensures DelimitedRound(text, TICK, '\n', open, close)
         == match NextSpan(text)
            case NoTick => Last(text)
            case Skipped(n) => More(text[..n], text[n..])
            case Found(i, j) => More(text[..i] + (open + text[i + 1..j] + close), text[j + 1..])
  {
    var found := Find(text, TICK);
    if found.Some? {
      match Span(text[found.value + 1..], TICK, '\n')
      case None => RoundSkipped(text, found.value, open, close);
      case Some(n) => RoundFound(text, found.value, n, open, close);
    }
  }

  lemma {:induction false} RoundAt(text: string, i: nat, span: Option<nat>, open: string, close: string)
    requires i < |text| && text[..i] + TICK == text[..i + 1]
    requires span.Some? ==> i + 1 + span.value < |text|
    ensures SpanOrDelimiter(text[..i], TICK, text[i + 1..], span, open, close)
         == match span
            case None => More(text[..i + 1], text[i + 1..])
            case Some(n) => More(text[..i] + (open + text[i + 1..i + 1 + n] + close), text[i + 1 + n + 1..])
  {
    if span.Some? {
      SplitContent(text, i, span.value);
    }
  }

  lemma {:induction false} PassUnfolds(text: string, open: string, close: string)
    ensures match DelimitedRound(text, TICK, '\n', open, close)
            case Last(out) => Delimited(text, TICK, '\n', open, close) == out
            case More(out, rest) =>
              Delimited(text, TICK, '\n', open, close) == out + Delimited(rest, TICK, '\n', open, close)
  {
  }

  lemma {:induction false} CutRound(text: string, next: SpanRound)
    requires next == NextSpan(text)
    ensures SpanCut(text)
         == match next
            case NoTick => End(text)
            case Skipped(n) => Prepend(text[..n], SpanCut(text[n..]))
            case Found(i, j) => Block(text[..i], text[i + 1..j], SpanCut(text[j + 1..]))
  {
  }

  lemma {:induction false} MarkedRound(text: string, next: SpanRound, open: string, close: string)
    requires next == NextSpan(text)
    ensures Marked(SpanCut(text), open, close)
         == match next
            case NoTick => text
            case Skipped(n) => text[..n] + Marked(SpanCut(text[n..]), open, close)
            case Found(i, j) =>
              text[..i] + (open + text[i + 1..j] + close) + Marked(SpanCut(text[j + 1..]), open, close)
  {
    CutRound(text, next);
    if next.Skipped? {
      PrependMarked(text[..next.length], SpanCut(text[next.length..]), open, close);
    }
  }

  /** One round of the pass is one step of the marked cut. */
  lemma {:induction false} BothRounds(text: string, open: string, close: string) returns (round: Round<char>)
    ensures match round
            case Last(out) => Delimited(text, TICK, '\n', open, close) == out == Marked(SpanCut(text), open, close)
            case More(out, rest) =>
              && |rest| < |text|
              && Delimited(text, TICK, '\n', open, close) == out + Delimited(rest, TICK, '\n', open, close)
              && Marked(SpanCut(text), open, close) == out + Marked(SpanCut(rest), open, close)
  {
    PassUnfolds(text, open, close);
    RoundIsNextSpan(text, open, close);
    MarkedRound(text, NextSpan(text), open, close);
    round := DelimitedRound(text, TICK, '\n', open, close);
  }

  lemma {:induction false} PassMarksCut(text: string, open: string, close: string)
    ensures Delimited(text, TICK, '\n', open, close) == Marked(SpanCut(text), open, close)
    decreases |text|
  {
    var round := BothRounds(text, open, close);
    if round.More? {
      PassMarksCut(round.rest, open, close);
    }
  }

  lemma {:induction false} SpanMatchParts(text: string, i: int, j: int, content: string)
    requires SpanMatch(text, i, j, content)
    ensures j == i + |content| + 2 && text[i] == '`' && text[j - 1] == '`' && content == text[i + 1..j - 1]
  {
    var w := text[i..j];
    assert |w| == |content| + 2;
    assert w[0] == '`' && w[|w| - 1] == '`' && w[1..|w| - 1] == content;
    assert |w| == j - i && text[i] == w[0] && text[j - 1] == w[|w| - 1];
    forall k | 0 <= k < |content|
      ensures text[i + 1 + k] == content[k]
    {
      assert w[1 + k] == text[i + 1 + k] && w[1..|w| - 1][k] == w[1 + k];
    }
  }

  lemma {:induction false} PartsMakeSpanMatch(text: string, i: int, j: int)
    requires 0 <= i && i + 2 < j <= |text| && text[i] == '`' && text[j - 1] == '`'
    requires OneLineNoTick(text[i + 1..j - 1])
    ensures SpanMatch(text, i, j, text[i + 1..j - 1])
  {
    assert text[i..j] == TICK + text[i + 1..j - 1] + TICK;
  }

  /** What the span check knows of the content after a tick. */
  lemma {:induction false} SpanCloses(content: string, n: nat)
    requires Span(content, TICK, '\n') == Some(n)
    ensures content[n] == '`' && OneLineNoTick(content[..n])
  {
    FindIsFirst(content, TICK);
    FindIsFirst(content, ['\n']);
    assert content[n..n + 1] == TICK;
    forall k | 0 <= k < n
      ensures content[k] != '`' && content[k] != '\n'
    {
      assert !OccursAt(content, TICK, k) && !OccursAt(content, ['\n'], k);
      assert content[k..k + 1] == [content[k]];
    }
  }

  lemma {:induction false} ClosedContentIsSpan(content: string, n: nat)
    requires 0 < n < |content| && content[n] == '`' && OneLineNoTick(content[..n])
    ensures Span(content, TICK, '\n') == Some(n)
  {
    FindIsFirst(content, TICK);
    FindIsFirst(content, ['\n']);
    assert content[n..n + 1] == TICK;
    assert OccursAt(content, TICK, n);
    forall k | 0 <= k < n
      ensures content[k] != '`' && content[k] != '\n'
    {
      assert content[..n][k] == content[k];
    }
    var close := Find(content, TICK).value;
    assert content[close..close + 1][0] == content[close] == '`';
    var eol := Find(content, ['\n']);
    if eol.Some? {
      assert content[eol.value..eol.value + 1][0] == content[eol.value] == '\n';
    }
  }

  lemma {:induction false} MatchIsSpan(text: string, i: nat, j: int, group: string)
    requires SpanMatch(text, i, j, group)
    ensures Span(text[i + 1..], TICK, '\n') == Some(|group|)
  {
    SpanMatchParts(text, i, j, group);
    assert text[i + 1..][..|group|] == group;
    ClosedContentIsSpan(text[i + 1..], |group|);
  }

  lemma {:induction false} SpanIsMatch(text: string, i: nat, n: nat)
    requires i < |text| && text[i] == '`' && Span(text[i + 1..], TICK, '\n') == Some(n)
    ensures SpanMatch(text, i, i + n + 2, text[i + 1..i + n + 1])
  {
    var content := text[i + 1..];
    SpanCloses(content, n);
    assert text[i + 1..i + n + 1] == content[..n];
    PartsMakeSpanMatch(text, i, i + n + 2);
  }

  lemma {:induction false} FoundTick(text: string, i: nat)
    requires Find(text, TICK) == Some(i)
    ensures text[i] == '`'
  {
    FindIsFirst(text, TICK);
    assert text[i..i + 1][0] == text[i];
  }

  lemma {:induction false} SpansStartAtTicks(text: string, i: int, j: int, content: string)
    requires SpanMatch(text, i, j, content)
    ensures Find(text, TICK).Some? && Find(text, TICK).value <= i
  {
    SpanMatchParts(text, i, j, content);
    assert text[i..i + 1] == TICK;
    assert OccursAt(text, TICK, i);
    FindIsFirst(text, TICK);
  }

  lemma {:induction false} ShiftSpan(text: string, skip: nat, i: int, j: int, content: string)
    requires skip <= |text| && 0 <= i
    ensures SpanMatch(text[skip..], i, j, content) <==> SpanMatch(text, skip + i, skip + j, content)
  {
    if i <= j && skip + j <= |text| {
      assert text[skip..][i..j] == text[skip + i..skip + j];
    }
  }

  lemma {:induction false} ShiftFirstSpan(text: string, n: nat, i: int, j: int, content: string)
    requires n <= |text| && FirstSpan(text[n..], i, j, content)
    requires forall i, j, content :: SpanMatch(text, i, j, content) ==> n <= i
    ensures FirstSpan(text, n + i, n + j, content)
  {
    ShiftSpan(text, n, i, j, content);
    forall i', j', content' | SpanMatch(text, i', j', content')
      ensures n + i < i' || (n + i == i' && n + j <= j')
    {
      ShiftSpan(text, n, i' - n, j' - n, content');
    }
  }

  lemma {:induction false} NoSpanAfterSkip(text: string, n: nat)
    requires n <= |text| && forall i, j, content :: !SpanMatch(text[n..], i, j, content)
    requires forall i, j, content :: SpanMatch(text, i, j, content) ==> n <= i
    ensures forall i, j, content :: !SpanMatch(text, i, j, content)
  {
    forall i, j, content | SpanMatch(text, i, j, content)
      ensures false
    {
      ShiftSpan(text, n, i - n, j - n, content);
    }
  }

  lemma {:induction false} SpanCutAfterSkip(text: string, n: nat, doc: Doc)
    requires n <= |text| && CutBySpans(text[n..], doc)
    requires forall i, j, content :: SpanMatch(text, i, j, content) ==> n <= i
    ensures CutBySpans(text, Prepend(text[..n], doc))
  {
    match doc
    case End(tail) =>
      NoSpanAfterSkip(text, n);
      assert text[..n] + text[n..] == text;
    case Block(before, body, rest) =>
      var i, j :| FirstSpan(text[n..], i, j, body) && before == text[n..][..i] && CutBySpans(text[n..][j..], rest);
      ShiftFirstSpan(text, n, i, j, body);
      SlicedAfter(text, n, i, j);
      assert FirstSpan(text, n + i, n + j, body) && CutBySpans(text[n + j..], rest);
  }

  lemma {:induction false} NoTickNoSpan(text: string)
    requires NextSpan(text) == NoTick
    ensures forall i, j, content :: !SpanMatch(text, i, j, content)
  {
    forall i, j, content
      ensures !SpanMatch(text, i, j, content)
    {
      if SpanMatch(text, i, j, content) {
        SpansStartAtTicks(text, i, j, content);
      }
    }
  }

  lemma {:induction false} SpanCutMatchesRegex(text: string)
    ensures CutBySpans(text, SpanCut(text))
    decreases |text|
  {
    var next, rest := CutStep(text);
    if !next.NoTick? {
      SpanCutMatchesRegex(rest);
      CutOneMore(text, next, rest, SpanCut(rest));
    }
  }

  /** Where the pass cuts first, and that this is where the expression does. */
  lemma {:induction false} CutStep(text: string) returns (next: SpanRound, rest: string)
    ensures match next
            case NoTick => SpanCut(text) == End(text) && CutBySpans(text, End(text))
            case Skipped(n) =>
              && 0 < n <= |text| && rest == text[n..]
              && SpanCut(text) == Prepend(text[..n], SpanCut(rest))
              && forall i, j, content :: SpanMatch(text, i, j, content) ==> n <= i
            case Found(i, j) =>
              && i < j < |text| && rest == text[j + 1..]
              && SpanCut(text) == Block(text[..i], text[i + 1..j], SpanCut(rest))
              && FirstSpan(text, i, j + 1, text[i + 1..j])
  {
    next := NextSpan(text);
    CutRound(text, next);
    match next
    case NoTick =>
      NoTickNoSpan(text);
      rest := "";
    case Skipped(n) =>
      SpansSkipTick(text, n);
      rest := text[n..];
    case Found(i, j) =>
      SpanComesFirst(text, i, j);
      rest := text[j + 1..];
  }

  lemma {:induction false} CutOneMore(text: string, next: SpanRound, rest: string, doc: Doc)
    requires CutBySpans(rest, doc)
    requires match next
             case NoTick => false
             case Skipped(n) =>
               && n <= |text| && rest == text[n..]
               && forall i, j, content :: SpanMatch(text, i, j, content) ==> n <= i
             case Found(i, j) =>
               i < j < |text| && rest == text[j + 1..] && FirstSpan(text, i, j + 1, text[i + 1..j])
    ensures match next
            case NoTick => true
            case Skipped(n) => CutBySpans(text, Prepend(text[..n], doc))
            case Found(i, j) => CutBySpans(text, Block(text[..i], text[i + 1..j], doc))
  {
    if next.Skipped? {
      SpanCutAfterSkip(text, next.length, doc);
    }
  }

  /** A first tick that opens no span is no part of a match. */
  lemma {:induction false} SpansSkipTick(text: string, n: nat)
    requires NextSpan(text) == Skipped(n)
    ensures forall i, j, content :: SpanMatch(text, i, j, content) ==> n <= i
  {
    forall i, j, content | SpanMatch(text, i, j, content)
      ensures n <= i
    {
      SpansStartAtTicks(text, i, j, content);
      if i == n - 1 {
        MatchIsSpan(text, i, j, content);
      }
    }
  }

  lemma {:induction false} SpanComesFirst(text: string, open: nat, close: nat)
    requires NextSpan(text) == Found(open, close)
    ensures FirstSpan(text, open, close + 1, text[open + 1..close])
  {
    FoundTick(text, open);
    SpanIsMatch(text, open, close - open - 1);
    forall i, j, content | SpanMatch(text, i, j, content)
      ensures open < i || (open == i && close + 1 <= j)
    {
      FoundSpanIsFirst(text, open, close, i, j, content);
    }
  }

  lemma {:induction false} FoundSpanIsFirst(text: string, open: nat, close: nat, i: int, j: int, content: string)
    requires NextSpan(text) == Found(open, close) && SpanMatch(text, i, j, content)
    ensures open < i || (open == i && close + 1 <= j)
  {
    SpansStartAtTicks(text, i, j, content);
    if i == open {
      MatchIsSpan(text, i, j, content);
      SpanMatchParts(text, i, j, content);
    }
  }

  lemma {:induction false} FirstSpanIsUnique(
      text: string, i: int, j: int, content: string, i': int, j': int, content': string)
    requires FirstSpan(text, i, j, content) && FirstSpan(text, i', j', content')
    ensures i == i' && j == j' && content == content'
  {
    assert i == i' && j == j';
    SpanMatchParts(text, i, j, content);
    SpanMatchParts(text, i, j, content');
  }

  /** The cut along the expression's matches is the only one. */
  lemma {:induction false} SpanCutIsUnique(text: string, a: Doc, b: Doc)
    requires CutBySpans(text, a) && CutBySpans(text, b)
    ensures a == b
    decreases a
  {
    if a.Block? && b.Block? {
      var i, j :| FirstSpan(text, i, j, a.body) && a.before == text[..i] && CutBySpans(text[j..], a.rest);
      var i', j' :| FirstSpan(text, i', j', b.body) && b.before == text[..i'] && CutBySpans(text[j'..], b.rest);
      FirstSpanIsUnique(text, i, j, a.body, i', j', b.body);
      SpanCutIsUnique(text[j..], a.rest, b.rest);
    }
  }

  /** On every text the backtick pass computes the substitution of the regular expression. */
  lemma {:induction false} BacktickPassMatchesRegex(text: string, open: string, close: string)
    ensures CutBySpans(text, SpanCut(text))
    ensures Delimited(text, TICK, '\n', open, close) == Marked(SpanCut(text), open, close)
  {
    SpanCutMatchesRegex(text);
    PassMarksCut(text, open, close);
  }
}
