/** Text whose tags and placeholders are single symbols. Every pass of the Markdown module, run on
    characters, computes the rendering of the same pass run on symbols: no pass ever looks inside a
    tag or a placeholder. */
module Markup {
  import opened Prelude
  import opened Text
  import opened Markdown

  datatype Tag =
    | BoldOpen | BoldClose | CodeOpen | CodeClose | PreOpen | PreClose
    | LinkOpen | LinkMiddle | LinkClose

  datatype Symbol = Ch(c: char) | Ph(k: nat) | Tg(tag: Tag)

  function TagText(tag: Tag): string {
    match tag
    case BoldOpen => "<b>"
    case BoldClose => "</b>"
    case CodeOpen => "<code>"
    case CodeClose => "</code>"
    case PreOpen => "<pre>"
    case PreClose => "</pre>"
    case LinkOpen => "<a href=\""
    case LinkMiddle => "\">"
    case LinkClose => "</a>"
  }

  function Written(x: Symbol): string {
    match x
    case Ch(c) => [c]
    case Ph(k) => Placeholder(k)
    case Tg(tag) => TagText(tag)
  }

  function Render(t: seq<Symbol>): string {
    if t == [] then "" else Written(t[0]) + Render(t[1..])
  }

  function Chars(s: string): seq<Symbol> {
    seq(|s|, i requires 0 <= i < |s| => Ch(s[i]))
  }

  lemma {:induction false} RenderConcat(a: seq<Symbol>, b: seq<Symbol>)
    ensures Render(a + b) == Render(a) + Render(b)
  {
    if a == [] {
      assert a + b == b;
    } else {
      assert (a + b)[1..] == a[1..] + b;
      RenderConcat(a[1..], b);
      assert Written(a[0]) + (Render(a[1..]) + Render(b)) == Written(a[0]) + Render(a[1..]) + Render(b);
    }
  }

  lemma {:induction false} RenderChars(s: string)
    ensures Render(Chars(s)) == s
  {
    if s != "" {
      assert Chars(s)[1..] == Chars(s[1..]);
      RenderChars(s[1..]);
    }
  }

  lemma {:induction false} RenderOne(x: Symbol)
    ensures Render([x]) == Written(x)
  {
  }

  lemma {:induction false} RenderSplit(t: seq<Symbol>, i: nat)
    requires i <= |t|
    ensures Render(t) == Render(t[..i]) + Render(t[i..])
    ensures |Render(t[..i])| <= |Render(t)|
    ensures Render(t)[..|Render(t[..i])|] == Render(t[..i])
    ensures Render(t)[|Render(t[..i])|..] == Render(t[i..])
  {
    RenderConcat(t[..i], t[i..]);
    assert t[..i] + t[i..] == t;
  }

  // ---------- What the written symbols look like ----------

  /** The first two characters of d rule out that it begins at position p of w. */
  predicate Misses(w: string, d: string, p: nat)
    requires p < |w| && d != ""
  {
    w[p] != d[0] || (|d| > 1 && p + 1 < |w| && w[p + 1] != d[1])
  }

  /** d neither begins inside w nor runs into it. */
  predicate Opaque(w: string, d: string) {
    && w != "" && d != ""
    && (forall j :: 1 <= j < |d| ==> d[j] != w[0])
    && (forall p :: 0 <= p < |w| ==> Misses(w, d, p))
  }

  /** The characters the passes look for. */
  predicate IsSpecial(c: char) {
    c in {'\n', '#', '[', ']', '(', ')', '*', '`', '&', '\'', '\\'} || (IsWhitespace(c) && c != ' ')
  }

  lemma {:induction false} PlaceholderShape(k: nat)
    ensures var w := Placeholder(k);
      && |w| >= 18 && w[..15] == "@@TG_CODEBLOCK_" && w[|w| - 2..] == "@@"
      && (forall p :: 15 <= p < |w| - 2 ==> '0' <= w[p] <= '9')
  {
  }

  lemma {:induction false} PlaceholderPlain(k: nat, p: nat)
    requires p < |Placeholder(k)|
    ensures var w := Placeholder(k);
      && !IsSpecial(w[p]) && !IsWhitespace(w[p]) && w[p] != '<' && w[p] != '>' && w[p] != '"'
      && (w[p] == '_' ==> p + 1 < |w| && w[p + 1] != '_')
      && (w[p] == 'T' ==> p == 2)
      && (w[p] == '@' ==> p < 2 || p >= |w| - 2)
  {
  }

  lemma {:induction false} TagPlain(tag: Tag, p: nat)
    requires p < |TagText(tag)|
    ensures var w := TagText(tag);
      && !IsSpecial(w[p]) && w[p] != '_' && w[p] != '@' && w[p] != 'T'
      && (w[0] == '<' || w[0] == '"') && (w[0] == '<' <==> tag != LinkMiddle)
      && (w[p] == '<' ==> p == 0)
      && !IsWhitespace(w[0]) && !IsWhitespace(w[|w| - 1])
  {
  }

  lemma {:induction false} WrittenNonEmpty(x: Symbol)
    ensures Written(x) != ""
  {
  }

  /** Delimiters made of special characters, and the double underscore. */
  predicate IsDelimiter(d: string) {
    d == "__" || (d != "" && forall i :: 0 <= i < |d| ==> IsSpecial(d[i]))
  }

  lemma {:induction false} SymbolsAreOpaque(x: Symbol, d: string)
    requires !x.Ch? && IsDelimiter(d)
    ensures Opaque(Written(x), d)
  {
    var w := Written(x);
    forall p | 0 <= p < |w|
      ensures (d != "__" ==> forall j :: 0 <= j < |d| ==> w[p] != d[j])
      ensures d == "__" ==> w[p] != '_' || (p + 1 < |w| && w[p + 1] != '_')
    {
      match x
      case Ph(k) => PlaceholderPlain(k, p);
      case Tg(tag) => TagPlain(tag, p);
    }
    match x
    case Ph(k) => PlaceholderShape(k); assert w[0] == w[..15][0];
    case Tg(tag) => TagPlain(tag, 0);
  }

  // ---------- Searching ----------

  ghost predicate Atomic(t: seq<Symbol>, d: string) {
    d != "" && forall i :: 0 <= i < |t| && !t[i].Ch? ==> Opaque(Written(t[i]), d)
  }

  lemma {:induction false} DelimitersAreAtomic(t: seq<Symbol>, d: string)
    requires IsDelimiter(d)
    ensures Atomic(t, d)
  {
    forall i | 0 <= i < |t| && !t[i].Ch?
      ensures Opaque(Written(t[i]), d)
    {
      SymbolsAreOpaque(t[i], d);
    }
  }

  function Shift(r: Option<nat>, n: nat): Option<nat> {
    if r.None? then None else Some(r.value + n)
  }

  lemma {:induction false} SkipOpaque(w: string, rest: string, d: string, p: nat)
    requires Opaque(w, d) && p <= |w|
    ensures Find((w + rest)[p..], d) == Shift(Find(rest, d), |w| - p)
    decreases |w| - p
  {
    var s := (w + rest)[p..];
    if p == |w| {
      assert s == rest;
    } else {
      assert s[0] == w[p];
      if p + 1 < |w| {
        assert s[1] == w[p + 1];
      }
      assert Misses(w, d, p);
      FindStep(s, d);
      assert s[1..] == (w + rest)[p + 1..];
      SkipOpaque(w, rest, d, p + 1);
    }
  }

  lemma {:induction false} PrefixRender(t: seq<Symbol>, d: string)
    requires forall i, j :: 0 <= i < |t| && !t[i].Ch? && 0 <= j < |d| ==> d[j] != Written(t[i])[0]
    ensures Chars(d) <= t <==> d <= Render(t)
    decreases |d|
  {
    if d != "" && t != [] {
      WrittenNonEmpty(t[0]);
      assert Render(t)[0] == Written(t[0])[0];
      if t[0] == Ch(d[0]) {
        PrefixRender(t[1..], d[1..]);
        assert Chars(d) == [Ch(d[0])] + Chars(d[1..]);
        assert Render(t)[1..] == Render(t[1..]);
        assert d == [d[0]] + d[1..];
        assert Chars(d) <= t <==> Chars(d[1..]) <= t[1..];
        assert d <= Render(t) <==> d[1..] <= Render(t[1..]);
      } else {
        assert Chars(d)[0] == Ch(d[0]);
      }
    } else if d != "" {
      assert Render(t) == "";
    }
  }

  lemma {:induction false} HeadRender(t: seq<Symbol>, d: string)
    requires t != [] && t[0].Ch? && Atomic(t, d)
    ensures Chars(d) <= t <==> d <= Render(t)
  {
    assert Render(t) == [t[0].c] + Render(t[1..]);
    if t[0].c == d[0] {
      PrefixRender(t[1..], d[1..]);
      assert Chars(d) == [Ch(d[0])] + Chars(d[1..]);
      assert Render(t)[1..] == Render(t[1..]);
      assert d == [d[0]] + d[1..];
      assert Chars(d) <= t <==> Chars(d[1..]) <= t[1..];
      assert d <= Render(t) <==> d[1..] <= Render(t[1..]);
    } else {
      assert Chars(d)[0] == Ch(d[0]);
    }
  }

  /** The position in the rendering of a position among the symbols. */
  function RenderedAt(t: seq<Symbol>, r: Option<nat>): Option<nat>
    requires r.Some? ==> r.value <= |t|
  {
    if r.None? then None else Some(|Render(t[..r.value])|)
  }

  lemma {:induction false} RenderedOneFurther(t: seq<Symbol>, r: Option<nat>)
    requires t != [] && (r.Some? ==> r.value < |t|)
    ensures RenderedAt(t, Shift(r, 1)) == Shift(RenderedAt(t[1..], r), |Written(t[0])|)
  {
    if r.Some? {
      assert t[..r.value + 1] == [t[0]] + t[1..][..r.value];
      RenderConcat([t[0]], t[1..][..r.value]);
      RenderOne(t[0]);
    }
  }

  lemma {:induction false} FindStep<T>(s: seq<T>, d: seq<T>)
    requires s != [] && !(d <= s)
    ensures Find(s, d) == Shift(Find(s[1..], d), 1)
  {
  }

  /** Searching the rendering finds what searching the symbols finds. */
  lemma {:induction false} FindRender(t: seq<Symbol>, d: string)
    requires Atomic(t, d)
    ensures Find(Render(t), d) == RenderedAt(t, Find(t, Chars(d)))
  {
    if t == [] {
      assert Chars(d) != [];
    } else if Chars(d) <= t {
      assert Chars(d)[0] == t[0] == Ch(d[0]);
      HeadRender(t, d);
      assert t[..0] == [];
    } else {
      FindRender(t[1..], d);
      FindStep(t, Chars(d));
      RenderedOneFurther(t, Find(t[1..], Chars(d)));
      FindBehindHead(t, d);
    }
  }

  lemma {:induction false} FindBehindHead(t: seq<Symbol>, d: string)
    requires t != [] && Atomic(t, d) && !(Chars(d) <= t)
    ensures Find(Render(t), d) == Shift(Find(Render(t[1..]), d), |Written(t[0])|)
  {
    if t[0].Ch? {
      HeadRender(t, d);
      assert Render(t)[1..] == Render(t[1..]);
      FindStep(Render(t), d);
    } else {
      SkipOpaque(Written(t[0]), Render(t[1..]), d, 0);
      assert (Written(t[0]) + Render(t[1..]))[0..] == Render(t);
    }
  }

  lemma {:induction false} LongerRendersLonger(t: seq<Symbol>, i: nat, j: nat)
    requires i < j <= |t|
    ensures |Render(t[..i])| < |Render(t[..j])|
  {
    RenderSplit(t[..j], i);
    assert t[..j][..i] == t[..i];
    WrittenNonEmpty(t[i]);
    assert t[..j][i..][0] == t[i];
  }

  /** Searching for one character. */
  lemma {:induction false} FindCharRender(t: seq<Symbol>, c: char)
    requires IsSpecial(c)
    ensures Find(Render(t), [c]) == RenderedAt(t, Find(t, [Ch(c)]))
  {
    DelimitersAreAtomic(t, [c]);
    assert Chars([c]) == [Ch(c)];
    FindRender(t, [c]);
  }

  // ---------- Passes ----------

  function RenderRound(r: Round<Symbol>): Round<char> {
    match r
    case Last(out) => Last(Render(out))
    case More(out, rest) => More(Render(out), Render(rest))
  }

  lemma {:induction false} SpanRender(content: seq<Symbol>, d: string)
    requires IsDelimiter(d)
    ensures Span(Render(content), d, '\n') == RenderedAt(content, Span(content, Chars(d), Ch('\n')))
  {
    DelimitersAreAtomic(content, d);
    FindRender(content, d);
    FindCharRender(content, '\n');
    var close, eol := Find(content, Chars(d)), Find(content, [Ch('\n')]);
    if close.Some? {
      assert content[..0] == [];
      if close.value > 0 {
        LongerRendersLonger(content, 0, close.value);
      }
      if eol.Some? && close.value < eol.value {
        LongerRendersLonger(content, close.value, eol.value);
      } else if eol.Some? && eol.value < close.value {
        LongerRendersLonger(content, eol.value, close.value);
      }
    }
  }

  lemma {:induction false} RenderThree(a: seq<Symbol>, b: seq<Symbol>, c: seq<Symbol>)
    ensures Render(a + b + c) == Render(a) + Render(b) + Render(c)
  {
    RenderConcat(a + b, c);
    RenderConcat(a, b);
  }

  /** Cutting a delimiter found at position i out of the text. */
  lemma {:induction false} CutRender(t: seq<Symbol>, i: nat, d: string)
    requires i + |d| <= |t| && t[i..i + |d|] == Chars(d)
    ensures var at := |Render(t[..i])|;
      && at + |d| <= |Render(t)|
      && Render(t)[..at] == Render(t[..i])
      && Render(t)[at + |d|..] == Render(t[i + |d|..])
  {
    assert t == t[..i] + Chars(d) + t[i + |d|..];
    RenderThree(t[..i], Chars(d), t[i + |d|..]);
    RenderChars(d);
  }

  lemma {:induction false} FoundSymbols(t: seq<Symbol>, d: string)
    requires Find(t, Chars(d)).Some?
    ensures var i := Find(t, Chars(d)).value;
      i + |d| <= |t| && t[i..i + |d|] == Chars(d)
  {
    FindIsFirst(t, Chars(d));
  }

  lemma {:induction false} BareDelimiterRender(before: seq<Symbol>, d: string, content: seq<Symbol>,
                                               open: seq<Symbol>, close: seq<Symbol>)
    ensures SpanOrDelimiter(Render(before), d, Render(content), None, Render(open), Render(close))
         == RenderRound(SpanOrDelimiter(before, Chars(d), content, None, open, close))
  {
    RenderConcat(before, Chars(d));
    RenderChars(d);
  }

  lemma {:induction false} WholeSpanRender(before: seq<Symbol>, d: string, content: seq<Symbol>, n: nat,
                                           open: seq<Symbol>, close: seq<Symbol>)
    requires n + |d| <= |content| && content[n..n + |d|] == Chars(d)
    ensures var at := |Render(content[..n])|;
      && at + |d| <= |Render(content)|
      && SpanOrDelimiter(Render(before), d, Render(content), Some(at), Render(open), Render(close))
         == RenderRound(SpanOrDelimiter(before, Chars(d), content, Some(n), open, close))
  {
    CutRender(content, n, d);
    MarkedRender(before, open, content[..n], close);
  }

  lemma {:induction false} MarkedRender(
      before: seq<Symbol>, open: seq<Symbol>, inside: seq<Symbol>, close: seq<Symbol>)
    ensures Render(before + (open + inside + close))
         == Render(before) + (Render(open) + Render(inside) + Render(close))
  {
    RenderConcat(before, open + inside + close);
    RenderThree(open, inside, close);
  }

  lemma {:induction false} RoundAt<T>(s: seq<T>, d: seq<T>, newline: T, open: seq<T>, close: seq<T>,
                                      i: nat, content: seq<T>, span: Option<nat>)
    requires d != [] && Find(s, d) == Some(i) && i + |d| <= |s| && s[i + |d|..] == content
    requires Span(content, d, newline) == span
    ensures DelimitedRound(s, d, newline, open, close) == SpanOrDelimiter(s[..i], d, content, span, open, close)
  {
  }

  lemma {:induction false} TextRound(t: seq<Symbol>, d: string, open: string, close: string, i: nat)
    requires IsDelimiter(d) && Find(t, Chars(d)) == Some(i) && i + |d| <= |t|
    ensures var content := t[i + |d|..];
      var span := RenderedAt(content, Span(content, Chars(d), Ch('\n')));
      && (span.Some? ==> span.value + |d| <= |Render(content)|)
      && DelimitedRound(Render(t), d, '\n', open, close)
         == SpanOrDelimiter(Render(t[..i]), d, Render(content), span, open, close)
  {
    DelimitersAreAtomic(t, d);
    FindRender(t, d);
    FoundSymbols(t, d);
    CutRender(t, i, d);
    var content := t[i + |d|..];
    SpanRender(content, d);
    var span := RenderedAt(content, Span(content, Chars(d), Ch('\n')));
    RoundAt(Render(t), d, '\n', open, close, |Render(t[..i])|, Render(content), span);
  }

  lemma {:induction false} FoundSpanRender(t: seq<Symbol>, d: string, open: seq<Symbol>, close: seq<Symbol>,
                                           i: nat, content: seq<Symbol>, n: nat)
    requires IsDelimiter(d) && Find(t, Chars(d)) == Some(i) && i + |d| <= |t|
    requires content == t[i + |d|..] && Span(content, Chars(d), Ch('\n')) == Some(n)
    requires content[n..n + |d|] == Chars(d)
    ensures DelimitedRound(Render(t), d, '\n', Render(open), Render(close))
         == RenderRound(SpanOrDelimiter(t[..i], Chars(d), content, Some(n), open, close))
  {
    TextRound(t, d, Render(open), Render(close), i);
    WholeSpanRender(t[..i], d, content, n, open, close);
  }

  lemma {:induction false} FoundBareRender(t: seq<Symbol>, d: string, open: seq<Symbol>, close: seq<Symbol>,
                                           i: nat, content: seq<Symbol>)
    requires IsDelimiter(d) && Find(t, Chars(d)) == Some(i) && i + |d| <= |t|
    requires content == t[i + |d|..] && Span(content, Chars(d), Ch('\n')) == None
    ensures DelimitedRound(Render(t), d, '\n', Render(open), Render(close))
         == RenderRound(SpanOrDelimiter(t[..i], Chars(d), content, None, open, close))
  {
    TextRound(t, d, Render(open), Render(close), i);
    BareDelimiterRender(t[..i], d, content, open, close);
  }

  /** One round over the rendering is the rendering of one round over the symbols. */
  lemma {:induction false} DelimitedRoundRender(t: seq<Symbol>, d: string, open: seq<Symbol>, close: seq<Symbol>)
    requires IsDelimiter(d)
    ensures DelimitedRound(Render(t), d, '\n', Render(open), Render(close))
         == RenderRound(DelimitedRound(t, Chars(d), Ch('\n'), open, close))
  {
    match Find(t, Chars(d))
    case None =>
      DelimitersAreAtomic(t, d);
      FindRender(t, d);
    case Some(i) => FoundRoundRender(t, d, open, close, i);
  }

  lemma {:induction false} SymbolRound(t: seq<Symbol>, d: string, open: seq<Symbol>, close: seq<Symbol>, i: nat)
      returns (content: seq<Symbol>, span: Option<nat>)
    requires IsDelimiter(d) && Find(t, Chars(d)) == Some(i)
    ensures i + |d| <= |t| && content == t[i + |d|..] && span == Span(content, Chars(d), Ch('\n'))
    ensures span.Some? ==> span.value + |d| <= |content| && content[span.value..span.value + |d|] == Chars(d)
    ensures DelimitedRound(t, Chars(d), Ch('\n'), open, close)
         == SpanOrDelimiter(t[..i], Chars(d), content, span, open, close)
  {
    content := t[i + |Chars(d)|..];
    span := Span(content, Chars(d), Ch('\n'));
    RoundAt(t, Chars(d), Ch('\n'), open, close, i, content, span);
    SpanEndsAt(content, d, span);
  }

  lemma {:induction false} SpanEndsAt(content: seq<Symbol>, d: string, span: Option<nat>)
    requires span == Span(content, Chars(d), Ch('\n'))
    ensures span.Some? ==> span.value + |d| <= |content| && content[span.value..span.value + |d|] == Chars(d)
  {
    if span.Some? {
      FoundSymbols(content, d);
    }
  }

  lemma {:induction false} FoundRoundRender(t: seq<Symbol>, d: string, open: seq<Symbol>, close: seq<Symbol>, i: nat)
    requires IsDelimiter(d) && Find(t, Chars(d)) == Some(i)
    ensures DelimitedRound(Render(t), d, '\n', Render(open), Render(close))
         == RenderRound(DelimitedRound(t, Chars(d), Ch('\n'), open, close))
  {
    var content, span := SymbolRound(t, d, open, close, i);
    match span
    case None => FoundBareRender(t, d, open, close, i, content);
    case Some(n) => FoundSpanRender(t, d, open, close, i, content, n);
  }

  lemma {:induction false} DelimitedRender(t: seq<Symbol>, d: string, open: seq<Symbol>, close: seq<Symbol>)
    requires IsDelimiter(d)
    ensures Render(Delimited(t, Chars(d), Ch('\n'), open, close))
         == Delimited(Render(t), d, '\n', Render(open), Render(close))
    decreases |t|
  {
    DelimitedRoundRender(t, d, open, close);
    var round := DelimitedRound(t, Chars(d), Ch('\n'), open, close);
    if round.More? {
      DelimitedRender(round.rest, d, open, close);
      RenderConcat(round.out, Delimited(round.rest, Chars(d), Ch('\n'), open, close));
    }
  }

  /** How one round reads the text: no delimiter, a bare one, or two around a span. */
  datatype Reading =
    | Whole
    | Bare(before: seq<Symbol>, rest: seq<Symbol>)
    | Enclosed(before: seq<Symbol>, inside: seq<Symbol>, rest: seq<Symbol>)

  function ReadingOf(t: seq<Symbol>, d: string): Reading {
    match Find(t, Chars(d))
    case None => Whole
    case Some(i) => ReadingAt(t[..i], d, t[i + |d|..])
  }

  function ReadingAt(before: seq<Symbol>, d: string, content: seq<Symbol>): Reading {
    match Span(content, Chars(d), Ch('\n'))
    case None => Bare(before, content)
    case Some(n) => Enclosed(before, content[..n], content[n + |d|..])
  }

  /** The text, by its reading. */
  function ReadBack(reading: Reading, t: seq<Symbol>, d: string): seq<Symbol> {
    match reading
    case Whole => t
    case Bare(before, rest) => before + Chars(d) + rest
    case Enclosed(before, inside, rest) => before + (Chars(d) + inside + Chars(d)) + rest
  }

  function RoundOf(reading: Reading, t: seq<Symbol>, d: string, open: seq<Symbol>, close: seq<Symbol>): Round<Symbol> {
    match reading
    case Whole => Last(t)
    case Bare(before, rest) => More(before + Chars(d), rest)
    case Enclosed(before, inside, rest) => More(before + (open + inside + close), rest)
  }

  lemma {:induction false} RoundReads(t: seq<Symbol>, d: string, open: seq<Symbol>, close: seq<Symbol>)
    requires d != ""
    ensures DelimitedRound(t, Chars(d), Ch('\n'), open, close) == RoundOf(ReadingOf(t, d), t, d, open, close)
  {
    var found := Find(t, Chars(d));
    if found.Some? {
      var content := t[found.value + |d|..];
      RoundAt(t, Chars(d), Ch('\n'), open, close, found.value, content, Span(content, Chars(d), Ch('\n')));
    }
  }

  lemma {:induction false} ReadingIsText(t: seq<Symbol>, d: string)
    ensures ReadBack(ReadingOf(t, d), t, d) == t
  {
    var found := Find(t, Chars(d));
    if found.Some? {
      var i, content := found.value, t[found.value + |d|..];
      FoundSymbols(t, d);
      assert t == t[..i] + Chars(d) + content;
      ReadingAtIsText(t[..i], d, content);
    }
  }

  lemma {:induction false} ReadingAtIsText(before: seq<Symbol>, d: string, content: seq<Symbol>)
    ensures ReadBack(ReadingAt(before, d, content), [], d) == before + Chars(d) + content
  {
    var span := Span(content, Chars(d), Ch('\n'));
    if span.Some? {
      var n := span.value;
      FoundSymbols(content, d);
      ThreeParts(content, n, |Chars(d)|);
      Regrouped(before, Chars(d), content[..n], Chars(d), content[n + |d|..]);
    }
  }

  lemma {:induction false} ThreeParts<T>(s: seq<T>, n: nat, w: nat)
    requires n + w <= |s|
    ensures s == s[..n] + s[n..n + w] + s[n + w..]
  {
  }

  lemma {:induction false} Regrouped<T>(a: seq<T>, b: seq<T>, c: seq<T>, d: seq<T>, e: seq<T>)
    ensures a + (b + c + d) + e == a + b + (c + d + e)
  {
  }

  // ---------- Splitting ----------

  function Prefixed<T>(x: seq<T>, halves: Option<Halves<T>>): Option<Halves<T>> {
    match halves
    case None => None
    case Some(h) => Some(Halves(x + h.before, h.after))
  }

  function RenderHalves(halves: Option<Halves<Symbol>>): Option<Halves<char>> {
    match halves
    case None => None
    case Some(h) => Some(Halves(Render(h.before), Render(h.after)))
  }

  lemma {:induction false} SplitPast<T>(w: seq<T>, rest: seq<T>, c: T)
    requires c !in w
    ensures SplitOnce(w + rest, c) == Prefixed(w, SplitOnce(rest, c))
  {
    if w == [] {
      assert w + rest == rest;
      var halves := SplitOnce(rest, c);
      assert halves.Some? ==> [] + halves.value.before == halves.value.before;
    } else {
      assert (w + rest)[1..] == w[1..] + rest;
      SplitPast(w[1..], rest, c);
      var halves := SplitOnce(rest, c);
      if halves.Some? {
        assert [w[0]] + (w[1..] + halves.value.before) == w + halves.value.before;
      }
    }
  }

  lemma {:induction false} SpecialsStayOut(x: Symbol, c: char)
    requires !x.Ch? && IsSpecial(c)
    ensures c !in Written(x)
  {
    forall p | 0 <= p < |Written(x)|
      ensures Written(x)[p] != c
    {
      match x
      case Ph(k) => PlaceholderPlain(k, p);
      case Tg(tag) => TagPlain(tag, p);
    }
  }

  lemma {:induction false} PrefixedRender(x: Symbol, halves: Option<Halves<Symbol>>)
    ensures RenderHalves(Prefixed([x], halves)) == Prefixed(Written(x), RenderHalves(halves))
  {
  }

  lemma {:induction false} SplitRender(t: seq<Symbol>, c: char)
    requires IsSpecial(c)
    ensures SplitOnce(Render(t), c) == RenderHalves(SplitOnce(t, Ch(c)))
  {
    if t != [] {
      if t[0] == Ch(c) {
        assert Render(t)[1..] == Render(t[1..]);
      } else {
        SplitRender(t[1..], c);
        PrefixedRender(t[0], SplitOnce(t[1..], Ch(c)));
        if !t[0].Ch? {
          SpecialsStayOut(t[0], c);
        }
        SplitPast(Written(t[0]), Render(t[1..]), c);
      }
    }
  }

  lemma {:induction false} EmptyRender(t: seq<Symbol>)
    ensures t == [] <==> Render(t) == ""
  {
  }

  lemma {:induction false} FirstRender(t: seq<Symbol>, c: char)
    requires IsSpecial(c)
    ensures t == [] <==> Render(t) == ""
    ensures t != [] ==> (t[0] == Ch(c) <==> Render(t)[0] == c)
    ensures t != [] && t[0] == Ch(c) ==> Render(t)[1..] == Render(t[1..])
  {
  }

  // ---------- Links ----------

  const LINK_SYMBOLS: LinkSyntax<Symbol> :=
    LinkSyntax(Ch('['), Ch(']'), Ch('('), Ch(')'), [Tg(LinkOpen)], [Tg(LinkMiddle)], [Tg(LinkClose)])

  predicate SymbolUrlOk(url: seq<Symbol>) {
    UrlOk(Render(url))
  }

  function RenderLink(link: Option<Link<Symbol>>): Option<Link<char>> {
    match link
    case None => None
    case Some(l) => Some(Link(Render(l.caption), Render(l.url), Render(l.rest)))
  }

  lemma {:induction false} LinkWithRender(caption: seq<Symbol>, t: seq<Symbol>)
    ensures LinkWith(Render(caption), Render(t), LINKS, UrlOk)
         == RenderLink(LinkWith(caption, t, LINK_SYMBOLS, SymbolUrlOk))
  {
    SplitRender(t, ')');
    EmptyRender(caption);
  }

  lemma {:induction false} LinkFromRender(t: seq<Symbol>)
    ensures LinkFrom(Render(t), LINKS, UrlOk) == RenderLink(LinkFrom(t, LINK_SYMBOLS, SymbolUrlOk))
  {
    SplitRender(t, ']');
    var cut := SplitOnce(t, Ch(']'));
    if cut.Some? {
      FirstRender(cut.value.after, '(');
      if cut.value.after != [] {
        LinkWithRender(cut.value.before, cut.value.after[1..]);
      }
    }
  }

  lemma {:induction false} AnchorRender(before: seq<Symbol>, url: seq<Symbol>, caption: seq<Symbol>)
    ensures Render(before + Anchor(LINK_SYMBOLS, url, caption))
         == Render(before) + Anchor(LINKS, Render(url), Render(caption))
  {
    RenderConcat(before, Anchor(LINK_SYMBOLS, url, caption));
    RenderThree([Tg(LinkOpen)], url, [Tg(LinkMiddle)]);
    RenderThree([Tg(LinkOpen)] + url + [Tg(LinkMiddle)], caption, [Tg(LinkClose)]);
    RenderOne(Tg(LinkOpen));
    RenderOne(Tg(LinkMiddle));
    RenderOne(Tg(LinkClose));
  }

  lemma {:induction false} LinkOrBracketRender(before: seq<Symbol>, after: seq<Symbol>, link: Option<Link<Symbol>>)
    ensures LinkOrBracket(Render(before), Render(after), RenderLink(link), LINKS)
         == RenderRound(LinkOrBracket(before, after, link, LINK_SYMBOLS))
  {
    match link
    case None =>
      RenderConcat(before, [Ch('[')]);
      RenderOne(Ch('['));
    case Some(l) => AnchorRender(before, l.url, l.caption);
  }

  lemma {:induction false} LinkRoundRender(t: seq<Symbol>)
    ensures LinkRound(Render(t), LINKS, UrlOk) == RenderRound(LinkRound(t, LINK_SYMBOLS, SymbolUrlOk))
  {
    SplitRender(t, '[');
    var cut := SplitOnce(t, Ch('['));
    if cut.Some? {
      LinkFromRender(cut.value.after);
      LinkOrBracketRender(cut.value.before, cut.value.after, LinkFrom(cut.value.after, LINK_SYMBOLS, SymbolUrlOk));
    }
  }

  lemma {:induction false} LinksRender(t: seq<Symbol>)
    ensures Render(Links(t, LINK_SYMBOLS, SymbolUrlOk)) == Links(Render(t), LINKS, UrlOk)
    decreases |t|
  {
    LinkRoundRender(t);
    var round := LinkRound(t, LINK_SYMBOLS, SymbolUrlOk);
    if round.More? {
      LinksRender(round.rest);
      RenderConcat(round.out, Links(round.rest, LINK_SYMBOLS, SymbolUrlOk));
    }
  }

  /** The text of a link, from its opening bracket on. */
  function LinkText(l: Link<Symbol>): seq<Symbol> {
    [Ch('[')] + l.caption + [Ch(']'), Ch('(')] + l.url + [Ch(')')]
  }

  /** How one round of the link pass reads the text. */
  datatype LinkReading =
    | Plain
    | Bracket(before: seq<Symbol>, rest: seq<Symbol>)
    | Linked(before: seq<Symbol>, link: Link<Symbol>)

  function LinkReadingOf(t: seq<Symbol>): LinkReading {
    match SplitOnce(t, Ch('['))
    case None => Plain
    case Some(cut) =>
      match LinkFrom(cut.after, LINK_SYMBOLS, SymbolUrlOk)
      case None => Bracket(cut.before, cut.after)
      case Some(link) => Linked(cut.before, link)
  }

  lemma {:induction false} LinkReads(t: seq<Symbol>)
    ensures LinkRound(t, LINK_SYMBOLS, SymbolUrlOk)
         == match LinkReadingOf(t)
            case Plain => Last(t)
            case Bracket(before, rest) => More(before + [Ch('[')], rest)
            case Linked(before, link) => More(before + Anchor(LINK_SYMBOLS, link.url, link.caption), link.rest)
  {
  }

  lemma {:induction false} LinkReadingIsText(t: seq<Symbol>)
    ensures match LinkReadingOf(t)
            case Plain => true
            case Bracket(before, rest) => t == before + [Ch('[')] + rest
            case Linked(before, link) =>
              t == before + LinkText(link) + link.rest && link.caption != [] && SymbolUrlOk(link.url)
  {
    var cut := SplitOnce(t, Ch('['));
    if cut.Some? {
      var link := LinkFrom(cut.value.after, LINK_SYMBOLS, SymbolUrlOk);
      if link.Some? {
        LinkedIsText(cut.value.before, cut.value.after, link.value);
        Rejoin(cut.value.before, [Ch('[')], cut.value.after);
      }
    }
  }

  lemma {:induction false} LinkedIsText(before: seq<Symbol>, after: seq<Symbol>, link: Link<Symbol>)
    requires LinkFrom(after, LINK_SYMBOLS, SymbolUrlOk) == Some(link)
    ensures before + ([Ch('[')] + after) == before + LinkText(link) + link.rest
    ensures link.caption != [] && SymbolUrlOk(link.url)
  {
    LinkIsText(after);
    Rejoin(before, LinkText(link), link.rest);
  }

  lemma {:induction false} Rejoin<T>(a: seq<T>, b: seq<T>, c: seq<T>)
    ensures a + (b + c) == a + b + c
  {
  }

  lemma {:induction false} LinkIsText(t: seq<Symbol>)
    ensures match LinkFrom(t, LINK_SYMBOLS, SymbolUrlOk)
            case None => true
            case Some(l) => l.caption != [] && SymbolUrlOk(l.url) && [Ch('[')] + t == LinkText(l) + l.rest
  {
  }

  // ---------- Headings ----------

  predicate SymbolBlank(x: Symbol) {
    x.Ch? && IsWhitespace(x.c)
  }

  predicate SymbolHash(x: Symbol) {
    x.Ch? && IsHash(x.c)
  }

  /** p on symbols is q on the characters that stand for themselves, and q rejects the ends of every
      tag and placeholder. */
  ghost predicate Classes(p: Symbol -> bool, q: char -> bool) {
    forall x: Symbol :: if x.Ch? then p(x) == q(x.c) else
      var w := Written(x); !p(x) && w != "" && !q(w[0]) && !q(w[|w| - 1])
  }

  lemma {:induction false} BlanksAndHashes()
    ensures Classes(SymbolBlank, IsWhitespace)
    ensures Classes(SymbolHash, IsHash)
  {
  }

  lemma {:induction false} HeadClass(t: seq<Symbol>, p: Symbol -> bool, q: char -> bool)
    requires Classes(p, q) && t != []
    ensures Render(t) != "" && p(t[0]) == q(Render(t)[0])
    ensures p(t[0]) ==> Render(t)[1..] == Render(t[1..])
  {
  }

  lemma {:induction false} LeadingRender(t: seq<Symbol>, p: Symbol -> bool, q: char -> bool, limit: nat)
    requires Classes(p, q)
    ensures Leading(Render(t), q, limit) == Leading(t, p, limit)
  {
    if t != [] && limit > 0 {
      HeadClass(t, p, q);
      if p(t[0]) {
        LeadingRender(t[1..], p, q, limit - 1);
      }
    }
  }

  /** Positions inside a run of such characters are the same among symbols and characters. */
  lemma {:induction false} LeadingAreChars(t: seq<Symbol>, p: Symbol -> bool, q: char -> bool, limit: nat, n: nat)
    requires Classes(p, q) && n <= Leading(t, p, limit)
    ensures n <= |Render(t)| && Render(t)[n..] == Render(t[n..])
  {
    if n > 0 {
      HeadClass(t, p, q);
      LeadingAreChars(t[1..], p, q, limit - 1, n - 1);
      assert t[1..][n - 1..] == t[n..] && Render(t)[1..][n - 1..] == Render(t)[n..];
    }
  }

  lemma {:induction false} LeadingUnlimited<T>(s: seq<T>, p: T -> bool, limit: nat)
    requires limit >= |s|
    ensures Leading(s, p, limit) == Leading(s, p, |s|)
  {
    if s != [] {
      LeadingUnlimited(s[1..], p, limit - 1);
    }
  }

  lemma {:induction false} RenderIsLonger(t: seq<Symbol>)
    ensures |t| <= |Render(t)|
  {
    if t != [] {
      WrittenNonEmpty(t[0]);
      RenderIsLonger(t[1..]);
    }
  }

  /** Leading symbols of such a class are characters. */
  lemma {:induction false} LeadingAreInClass<T>(t: seq<T>, p: T -> bool, limit: nat)
    ensures forall i :: 0 <= i < Leading(t, p, limit) ==> p(t[i])
  {
    if t != [] && limit > 0 && p(t[0]) {
      LeadingAreInClass(t[1..], p, limit - 1);
      forall i | 0 <= i < Leading(t, p, limit)
        ensures p(t[i])
      {
        assert i > 0 ==> t[i] == t[1..][i - 1];
      }
    }
  }

  lemma {:induction false} TrimStartRender(t: seq<Symbol>, p: Symbol -> bool, q: char -> bool)
    requires Classes(p, q)
    ensures TrimStart(Render(t), q) == Render(TrimStart(t, p))
  {
    if t != [] {
      HeadClass(t, p, q);
      if p(t[0]) {
        TrimStartRender(t[1..], p, q);
      }
    }
  }

  lemma {:induction false} TrimEndRender(t: seq<Symbol>, p: Symbol -> bool, q: char -> bool)
    requires Classes(p, q)
    ensures TrimEnd(Render(t), q) == Render(TrimEnd(t, p))
  {
    if t != [] {
      var init, last := t[..|t| - 1], t[|t| - 1];
      assert t == init + [last];
      RenderConcat(init, [last]);
      RenderOne(last);
      WrittenNonEmpty(last);
      var s := Render(t);
      assert s[|s| - 1] == Written(last)[|Written(last)| - 1];
      if p(last) {
        assert s[..|s| - 1] == Render(init);
        TrimEndRender(init, p, q);
      }
    }
  }

  lemma {:induction false} TrimRender(t: seq<Symbol>)
    ensures Trim(Render(t), IsWhitespace) == Render(Trim(t, SymbolBlank))
  {
    BlanksAndHashes();
    TrimStartRender(t, SymbolBlank, IsWhitespace);
    TrimEndRender(TrimStart(t, SymbolBlank), SymbolBlank, IsWhitespace);
  }

  lemma {:induction false} BlankTitleRender(t: seq<Symbol>)
    ensures var n := Leading(t, SymbolBlank, |t|);
      && Leading(Render(t), IsWhitespace, |Render(t)|) == n
      && (n > 0 ==> TitleFrom(Render(t), n) == Render(TitleFrom(t, n)))
  {
    BlanksAndHashes();
    var n := Leading(t, SymbolBlank, |t|);
    RenderIsLonger(t);
    LeadingUnlimited(t, SymbolBlank, |Render(t)|);
    LeadingRender(t, SymbolBlank, IsWhitespace, |Render(t)|);
    LeadingAreChars(t, SymbolBlank, IsWhitespace, |t|, n);
    EmptyRender(t[n..]);
    if n > 0 {
      LeadingAreChars(t, SymbolBlank, IsWhitespace, |t|, n - 1);
    }
  }

  function RenderTitle(title: Option<seq<Symbol>>): Option<string> {
    match title
    case None => None
    case Some(t) => Some(Render(t))
  }

  lemma {:induction false} HeadingRender(t: seq<Symbol>)
    ensures Heading(Render(t), IsWhitespace, IsHash) == RenderTitle(Heading(t, SymbolBlank, SymbolHash))
  {
    BlanksAndHashes();
    var indent := Leading(t, SymbolBlank, 3);
    LeadingRender(t, SymbolBlank, IsWhitespace, 3);
    LeadingAreChars(t, SymbolBlank, IsWhitespace, 3, indent);
    var unindented := t[indent..];
    var hashes := Leading(unindented, SymbolHash, 6);
    LeadingRender(unindented, SymbolHash, IsHash, 6);
    LeadingAreChars(unindented, SymbolHash, IsHash, 6, hashes);
    BlankTitleRender(unindented[hashes..]);
  }

  lemma {:induction false} HeadingLineRender(t: seq<Symbol>, open: seq<Symbol>, close: seq<Symbol>)
    ensures HeadingLine(Render(t), IsWhitespace, IsHash, Render(open), Render(close))
         == Render(HeadingLine(t, SymbolBlank, SymbolHash, open, close))
  {
    HeadingRender(t);
    var title := Heading(t, SymbolBlank, SymbolHash);
    if title.Some? {
      TrimRender(title.value);
      RenderThree(open, Trim(title.value, SymbolBlank), close);
    }
  }

  lemma {:induction false} HeadingRoundRender(t: seq<Symbol>, open: seq<Symbol>, close: seq<Symbol>)
    ensures HeadingRound(Render(t), '\n', IsWhitespace, IsHash, Render(open), Render(close))
         == RenderRound(HeadingRound(t, Ch('\n'), SymbolBlank, SymbolHash, open, close))
  {
    SplitRender(t, '\n');
    match SplitOnce(t, Ch('\n'))
    case None => HeadingLineRender(t, open, close);
    case Some(cut) =>
      HeadingLineRender(cut.before, open, close);
      RenderConcat(HeadingLine(cut.before, SymbolBlank, SymbolHash, open, close), [Ch('\n')]);
      RenderOne(Ch('\n'));
  }

  lemma {:induction false} HeadingsRender(t: seq<Symbol>, open: seq<Symbol>, close: seq<Symbol>)
    ensures Render(Headings(t, Ch('\n'), SymbolBlank, SymbolHash, open, close))
         == Headings(Render(t), '\n', IsWhitespace, IsHash, Render(open), Render(close))
    decreases |t|
  {
    HeadingRoundRender(t, open, close);
    var round := HeadingRound(t, Ch('\n'), SymbolBlank, SymbolHash, open, close);
    if round.More? {
      HeadingsRender(round.rest, open, close);
      RenderConcat(round.out, Headings(round.rest, Ch('\n'), SymbolBlank, SymbolHash, open, close));
    }
  }

  ghost predicate AllChars(t: seq<Symbol>) {
    forall i :: 0 <= i < |t| ==> t[i].Ch?
  }

  /** u is t without some characters at its ends. */
  ghost predicate Stripped(t: seq<Symbol>, u: seq<Symbol>) {
    exists a, b :: AllChars(a) && AllChars(b) && t == a + u + b
  }

  lemma {:induction false} StrippedBy(t: seq<Symbol>, a: seq<Symbol>, u: seq<Symbol>, b: seq<Symbol>)
    requires AllChars(a) && AllChars(b) && t == a + u + b
    ensures Stripped(t, u)
  {
  }

  lemma {:induction false} StrippedTrans(t: seq<Symbol>, u: seq<Symbol>, w: seq<Symbol>)
    requires Stripped(t, u) && Stripped(u, w)
    ensures Stripped(t, w)
  {
    var a, b :| AllChars(a) && AllChars(b) && t == a + u + b;
    var a', b' :| AllChars(a') && AllChars(b') && u == a' + w + b';
    StrippedBy(t, a + a', w, b' + b);
  }

  lemma {:induction false} DropFront(t: seq<Symbol>, n: nat)
    requires n <= |t| && AllChars(t[..n])
    ensures Stripped(t, t[n..])
  {
    StrippedBy(t, t[..n], t[n..], []);
  }

  lemma {:induction false} TrimStartStrips(t: seq<Symbol>)
    ensures Stripped(t, TrimStart(t, SymbolBlank))
  {
    if t != [] && SymbolBlank(t[0]) {
      TrimStartStrips(t[1..]);
      DropFront(t, 1);
      StrippedTrans(t, t[1..], TrimStart(t, SymbolBlank));
    } else {
      DropFront(t, 0);
    }
  }

  lemma {:induction false} TrimEndStrips(t: seq<Symbol>)
    ensures Stripped(t, TrimEnd(t, SymbolBlank))
  {
    if t != [] && SymbolBlank(t[|t| - 1]) {
      var init := t[..|t| - 1];
      TrimEndStrips(init);
      StrippedBy(t, [], init, [t[|t| - 1]]);
      StrippedTrans(t, init, TrimEnd(t, SymbolBlank));
    } else {
      DropFront(t, 0);
    }
  }

  lemma {:induction false} TrimStrips(t: seq<Symbol>)
    ensures Stripped(t, Trim(t, SymbolBlank))
  {
    TrimStartStrips(t);
    TrimEndStrips(TrimStart(t, SymbolBlank));
    StrippedTrans(t, TrimStart(t, SymbolBlank), Trim(t, SymbolBlank));
  }

  lemma {:induction false} LeadingStrips(t: seq<Symbol>, p: Symbol -> bool, limit: nat)
    requires forall x :: p(x) ==> x.Ch?
    ensures Stripped(t, t[Leading(t, p, limit)..])
  {
    LeadingAreInClass(t, p, limit);
    DropFront(t, Leading(t, p, limit));
  }

  lemma {:induction false} BlanksStrip(t: seq<Symbol>, n: nat)
    requires 0 < n == Leading(t, SymbolBlank, |t|)
    ensures Stripped(t, TitleFrom(t, n))
  {
    LeadingAreInClass(t, SymbolBlank, |t|);
    DropFront(t, n);
    DropFront(t, n - 1);
  }

  /** The title of a heading is its line without some characters at the ends. */
  lemma {:induction false} TitleStrips(t: seq<Symbol>)
    ensures var title := Heading(t, SymbolBlank, SymbolHash);
      title.Some? ==> Stripped(t, Trim(title.value, SymbolBlank))
  {
    LeadingStrips(t, SymbolBlank, 3);
    var unindented := t[Leading(t, SymbolBlank, 3)..];
    var hashes := Leading(unindented, SymbolHash, 6);
    LeadingStrips(unindented, SymbolHash, 6);
    var rest := unindented[hashes..];
    StrippedTrans(t, unindented, rest);
    var blanks := Leading(rest, SymbolBlank, |rest|);
    if hashes > 0 && blanks > 0 {
      BlanksStrip(rest, blanks);
      StrippedTrans(t, rest, TitleFrom(rest, blanks));
      TrimStrips(TitleFrom(rest, blanks));
      StrippedTrans(t, TitleFrom(rest, blanks), Trim(TitleFrom(rest, blanks), SymbolBlank));
    }
  }

  // ---------- All passes ----------

  function HeadingPass(t: seq<Symbol>): seq<Symbol> {
    Headings(t, Ch('\n'), SymbolBlank, SymbolHash, [Tg(BoldOpen)], [Tg(BoldClose)])
  }

  function LinkPass(t: seq<Symbol>): seq<Symbol> {
    Links(t, LINK_SYMBOLS, SymbolUrlOk)
  }

  function DelimiterPass(t: seq<Symbol>, d: string, open: Tag, close: Tag): seq<Symbol>
    requires d != ""
  {
    Delimited(t, Chars(d), Ch('\n'), [Tg(open)], [Tg(close)])
  }

  lemma {:induction false} DelimiterPassStep(t: seq<Symbol>, d: string, open: Tag, close: Tag)
    requires d != ""
    ensures DelimiterPass(t, d, open, close)
         == match ReadingOf(t, d)
            case Whole => t
            case Bare(before, rest) => (before + Chars(d)) + DelimiterPass(rest, d, open, close)
            case Enclosed(before, inside, rest) =>
              before + ([Tg(open)] + inside + [Tg(close)]) + DelimiterPass(rest, d, open, close)
  {
    RoundReads(t, d, [Tg(open)], [Tg(close)]);
  }

  lemma {:induction false} LinkPassStep(t: seq<Symbol>)
    ensures LinkPass(t)
         == match LinkReadingOf(t)
            case Plain => t
            case Bracket(before, rest) => (before + [Ch('[')]) + LinkPass(rest)
            case Linked(before, l) => before + Anchor(LINK_SYMBOLS, l.url, l.caption) + LinkPass(l.rest)
  {
    LinkReads(t);
  }

  function BoldPass(t: seq<Symbol>): seq<Symbol> {
    DelimiterPass(DelimiterPass(t, "**", BoldOpen, BoldClose), "__", BoldOpen, BoldClose)
  }

  function CodePass(t: seq<Symbol>): seq<Symbol> {
    DelimiterPass(t, "`", CodeOpen, CodeClose)
  }

  /** The passes over symbols. */
  function SymbolSpans(t: seq<Symbol>): seq<Symbol> {
    CodePass(BoldPass(LinkPass(HeadingPass(t))))
  }

  lemma {:induction false} HeadingPassRender(t: seq<Symbol>)
    ensures MarkedHeadings(Render(t)) == Render(HeadingPass(t))
  {
    RenderOne(Tg(BoldOpen));
    RenderOne(Tg(BoldClose));
    HeadingsRender(t, [Tg(BoldOpen)], [Tg(BoldClose)]);
  }

  lemma {:induction false} DelimiterPassRender(t: seq<Symbol>, d: string, open: Tag, close: Tag)
    requires IsDelimiter(d)
    ensures Delimited(Render(t), d, '\n', TagText(open), TagText(close)) == Render(DelimiterPass(t, d, open, close))
  {
    RenderOne(Tg(open));
    RenderOne(Tg(close));
    DelimitedRender(t, d, [Tg(open)], [Tg(close)]);
  }

  lemma {:induction false} BoldPassRender(t: seq<Symbol>)
    ensures Bold(Render(t)) == Render(BoldPass(t))
  {
    DelimiterPassRender(t, "**", BoldOpen, BoldClose);
    DelimiterPassRender(DelimiterPass(t, "**", BoldOpen, BoldClose), "__", BoldOpen, BoldClose);
  }

  lemma {:induction false} CodePassRender(t: seq<Symbol>)
    ensures Code(Render(t)) == Render(CodePass(t))
  {
    DelimiterPassRender(t, "`", CodeOpen, CodeClose);
  }

  /** Running the passes on characters is running them on symbols: no pass looks inside a tag or a
      placeholder. */
  lemma {:induction false} SpansRender(t: seq<Symbol>)
    ensures Spans(Render(t)) == Render(SymbolSpans(t))
  {
    HeadingPassRender(t);
    LinksRender(HeadingPass(t));
    BoldPassRender(LinkPass(HeadingPass(t)));
    CodePassRender(BoldPass(LinkPass(HeadingPass(t))));
  }
}
