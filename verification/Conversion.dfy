/** What the whole conversion makes of each kind of markup, in the middle of ordinary text. */
module Conversion {
  import opened Prelude
  import opened Text
  import opened Markdown
  import HeadingRegex
  import LinkRegex
  import opened CodeBlocksVerbatim

  /** None of the characters that markup begins with. */
  predicate Ordinary(s: string) {
    '#' !in s && '[' !in s && '*' !in s && '_' !in s && '`' !in s && '@' !in s
  }

  /** What escaping can bring in. */
  predicate InEntities(c: char) {
    'a' <= c <= 'z' || c == '&' || c == ';' || c == '#' || c == '2' || c == '7'
  }

  /** Hashes occur inside entities only, so no line starts with one. */
  ghost predicate HashesInEntities(s: string) {
    forall i :: 0 <= i < |s| && s[i] == '#' ==> i > 0 && s[i - 1] == '&'
  }

  /** Text that the passes leave alone. */
  ghost predicate Quiet(s: string) {
    HashesInEntities(s) && '[' !in s && '*' !in s && '_' !in s && '`' !in s && '@' !in s
  }

  // ---------- Escaping ----------

  /** Escaping brings in nothing but the entities. */
  lemma {:induction false} EscapedChars(s: string, c: char)
    requires c !in s && !InEntities(c)
    ensures c !in EscapeHtml(s)
  {
    if s != "" {
      EscapedChars(s[1..], c);
      EscapedChar(s[0]);
    }
  }

  lemma {:induction false} EscapedChar(c: char)
    ensures EscapeChar(c) == [c] || forall i :: 0 <= i < |EscapeChar(c)| ==> InEntities(EscapeChar(c)[i])
  {
  }

  lemma {:induction false} EscapedHashes(s: string)
    requires '#' !in s
    ensures HashesInEntities(EscapeHtml(s))
  {
    if s != "" {
      EscapedHashes(s[1..]);
      QuietHashesConcat(EscapeChar(s[0]), EscapeHtml(s[1..]));
    }
  }

  lemma {:induction false} QuietHashesConcat(a: string, b: string)
    requires HashesInEntities(a) && HashesInEntities(b)
    ensures HashesInEntities(a + b)
  {
  }

  lemma {:induction false} OrdinaryIsQuiet(s: string)
    requires Ordinary(s)
    ensures Quiet(EscapeHtml(s))
  {
    EscapedHashes(s);
    EscapedChars(s, '[');
    EscapedChars(s, '*');
    EscapedChars(s, '_');
    EscapedChars(s, '`');
    EscapedChars(s, '@');
  }

  lemma {:induction false} EscapedNonEmpty(s: string)
    ensures s != "" <==> EscapeHtml(s) != ""
  {
  }

  // ---------- Passes that find nothing ----------

  lemma {:induction false} NoHeading(line: string)
    requires HashesInEntities(line)
    ensures Heading(line, IsWhitespace, IsHash) == None
  {
    HeadingRegex.LeadingIsMaximal(line, IsWhitespace, 3);
    var n := Leading(line, IsWhitespace, 3);
    assert n < |line| ==> line[n..][0] == line[n];
    assert n < |line| && line[n] == '#' ==> n > 0 && line[n - 1] == '&' && !IsWhitespace('&');
  }

  lemma {:induction false} NoHeadings(s: string)
    requires HashesInEntities(s)
    ensures MarkedHeadings(s) == s
    decreases |s|
  {
    var cut := SplitOnce(s, '\n');
    match cut
    case None => NoHeading(s);
    case Some(halves) =>
      var n := |halves.before|;
      assert s[n] == '\n' && s[n + 1..] == halves.after && s[..n] == halves.before;
      assert forall i :: 0 <= i < n ==> halves.before[i] == s[i];
      assert forall i :: 0 <= i < |halves.after| ==> halves.after[i] == s[n + 1 + i];
      NoHeading(halves.before);
      NoHeadings(halves.after);
  }

  lemma {:induction false} NoLinks(s: string)
    requires '[' !in s
    ensures Links(s, LINKS, UrlOk) == s
  {
    assert SplitOnce(s, '[').Some? ==> '[' in s;
  }

  lemma {:induction false} NotFound(s: string, d: string)
    requires d != "" && d[0] !in s
    ensures Find(s, d) == None
  {
    FindIsFirst(s, d);
    var found := Find(s, d);
    if found.Some? {
      OccursChar(s, d, found.value, 0);
    }
  }

  lemma {:induction false} OccursChar(s: string, d: string, i: nat, k: nat)
    requires OccursAt(s, d, i) && k < |d|
    ensures i + k < |s| && s[i + k] == d[k]
  {
    assert s[i..i + |d|][k] == s[i + k];
  }

  lemma {:induction false} FirstTwo(s: string, d: string, i: nat)
    requires OccursAt(s, d, i) && |d| > 1
    ensures i + 1 < |s| && s[i] == d[0] && s[i + 1] == d[1]
  {
    OccursChar(s, d, i, 0);
    OccursChar(s, d, i, 1);
  }

  lemma {:induction false} NoSpans(s: string, d: string, open: string, close: string)
    requires d != "" && Find(s, d) == None
    ensures Delimited(s, d, '\n', open, close) == s
  {
  }

  lemma {:induction false} BoldLeaves(s: string)
    requires '*' !in s && Find(s, "__") == None
    ensures Bold(s) == s
  {
    NotFound(s, "**");
    NoSpans(s, "**", "<b>", "</b>");
    NoSpans(s, "__", "<b>", "</b>");
  }

  lemma {:induction false} CodeLeaves(s: string)
    requires '`' !in s
    ensures Code(s) == s
  {
    NotFound(s, "`");
    NoSpans(s, "`", "<code>", "</code>");
  }

  /** Text that the delimiter passes leave alone. */
  ghost predicate Calm(s: string) {
    '*' !in s && '_' !in s && '`' !in s
  }

  lemma {:induction false} CalmConcat(a: string, b: string)
    requires Calm(a) && Calm(b)
    ensures Calm(a + b)
  {
  }

  /** Nothing is left for the delimiter passes once the other two are done. */
  lemma {:induction false} CalmAfter(s: string, marked: string, linked: string)
    requires MarkedHeadings(s) == marked && Links(marked, LINKS, UrlOk) == linked && Calm(linked)
    ensures Spans(s) == linked
  {
    NotFound(linked, "__");
    BoldLeaves(linked);
    CodeLeaves(linked);
  }

  lemma {:induction false} QuietStays(s: string)
    requires Quiet(s)
    ensures Spans(s) == s
  {
    NoHeadings(s);
    NoLinks(s);
    CalmAfter(s, s, s);
  }

  lemma {:induction false} WithoutFences(text: string)
    requires Find(text, FENCE) == None
    ensures MarkdownToHtml(text) == Spans(EscapeHtml(text))
  {
  }

  /** Ordinary text is only escaped. */
  lemma {:induction false} OrdinaryText(text: string)
    requires Ordinary(text)
    ensures MarkdownToHtml(text) == EscapeHtml(text)
  {
    NotFound(text, FENCE);
    WithoutFences(text);
    OrdinaryIsQuiet(text);
    QuietStays(EscapeHtml(text));
  }

  // ---------- One span ----------

  lemma {:induction false} FoundAfter(a: string, d: string, r: string)
    requires d != "" && d[0] !in a
    ensures Find(a + (d + r), d) == Some(|a|)
  {
    if a == "" {
      assert a + (d + r) == d + r;
      assert d <= d + r;
    } else {
      assert (a + (d + r))[1..] == a[1..] + (d + r);
      FoundAfter(a[1..], d, r);
    }
  }

  lemma {:induction false} SpanIs(x: string, d: string, b: string)
    requires d != "" && x != "" && d[0] !in x && '\n' !in x && '\n' !in d
    ensures Span(x + (d + b), d, '\n') == Some(|x|)
  {
    FoundAfter(x, d, b);
    var content := x + (d + b);
    FindIsFirst(content, ['\n']);
    var eol := Find(content, ['\n']);
    if eol.Some? {
      assert content[eol.value..eol.value + 1][0] == content[eol.value] == '\n';
      assert eol.value >= |x|;
      assert eol.value != |x|;
    }
  }

  lemma {:induction false} SpanMarked(a: string, d: string, x: string, b: string, open: string, close: string)
    requires d != "" && x != "" && d[0] !in a && d[0] !in x && d[0] !in b && '\n' !in x && '\n' !in d
    ensures Delimited(a + (d + (x + (d + b))), d, '\n', open, close) == a + (open + x + close) + b
  {
    var content := x + (d + b);
    var s := a + (d + content);
    FoundAfter(a, d, content);
    SpanIs(x, d, b);
    assert s[..|a|] == a && s[|a| + |d|..] == content;
    assert content[..|x|] == x && content[|x| + |d|..] == b;
    NotFound(b, d);
    NoSpans(b, d, open, close);
    SpanRound(s, d, a, content, x, b, open, close);
  }

  lemma {:induction false} SpanRound(
      s: string, d: string, a: string, content: string, x: string, b: string, open: string, close: string)
    requires d != "" && Find(s, d) == Some(|a|) && s[..|a|] == a && s[|a| + |d|..] == content
    requires Span(content, d, '\n') == Some(|x|) && content[..|x|] == x && content[|x| + |d|..] == b
    ensures Delimited(s, d, '\n', open, close) == a + (open + x + close) + Delimited(b, d, '\n', open, close)
  {
    RoundIs(s, d, a, content, x, b, open, close);
    DelimitedUnfolds(s, d, open, close);
  }

  lemma {:induction false} RoundIs(
      s: string, d: string, a: string, content: string, x: string, b: string, open: string, close: string)
    requires d != "" && Find(s, d) == Some(|a|) && s[..|a|] == a && s[|a| + |d|..] == content
    requires Span(content, d, '\n') == Some(|x|) && content[..|x|] == x && content[|x| + |d|..] == b
    ensures DelimitedRound(s, d, '\n', open, close) == More(a + (open + x + close), b)
  {
  }

  lemma {:induction false} DelimitedUnfolds(s: string, d: string, open: string, close: string)
    requires d != ""
    ensures match DelimitedRound(s, d, '\n', open, close)
            case Last(out) => Delimited(s, d, '\n', open, close) == out
            case More(out, rest) => Delimited(s, d, '\n', open, close) == out + Delimited(rest, d, '\n', open, close)
  {
  }

  /** Escaping around a mark that has no meaning in HTML. */
  lemma {:induction false} EscapeAround(a: string, mark: string, b: string)
    requires forall i :: 0 <= i < |mark| ==> EscapeChar(mark[i]) == [mark[i]]
    ensures EscapeHtml(a + (mark + b)) == EscapeHtml(a) + (mark + EscapeHtml(b))
  {
    EscapeConcat(a, mark + b);
    EscapeConcat(mark, b);
    EscapePlain(mark);
  }

  lemma {:induction false} EscapedSpan(before: string, d: string, x: string, after: string)
    requires d in ["**", "__", "`"]
    ensures EscapeHtml(before + (d + (x + (d + after))))
         == EscapeHtml(before) + (d + (EscapeHtml(x) + (d + EscapeHtml(after))))
  {
    EscapeAround(before, d, x + (d + after));
    EscapeAround(x, d, after);
  }

  /** The parts around the delimiters are quiet. */
  lemma {:induction false} DelimitedIsQuietBefore(a: string, d: string, x: string, b: string)
    requires d in ["**", "__", "`"] && Quiet(a) && Quiet(x) && Quiet(b)
    ensures var s := a + (d + (x + (d + b)));
      && HashesInEntities(s) && '[' !in s
      && (d != "**" ==> '*' !in s) && (d != "__" ==> '_' !in s) && (d != "`" ==> '`' !in s)
  {
    QuietHashesConcat(d, b);
    QuietHashesConcat(x, d + b);
    QuietHashesConcat(d, x + (d + b));
    QuietHashesConcat(a, d + (x + (d + b)));
  }

  lemma {:induction false} BoldPasses(a: string, d: string, x: string, b: string)
    requires d in ["**", "__"] && Quiet(a) && Quiet(x) && Quiet(b) && x != "" && '\n' !in x
    ensures Bold(a + (d + (x + (d + b)))) == a + ("<b>" + x + "</b>") + b
  {
    SpanMarked(a, d, x, b, "<b>", "</b>");
    if d == "**" {
      BoldHasNoUnderscore(a, x, b);
    } else {
      DelimitedIsQuietBefore(a, d, x, b);
      NotFound(a + (d + (x + (d + b))), "**");
      NoSpans(a + (d + (x + (d + b))), "**", "<b>", "</b>");
    }
  }

  lemma {:induction false} BoldHasNoUnderscore(a: string, x: string, b: string)
    requires Calm(a) && Calm(x) && Calm(b)
    ensures var out := a + ("<b>" + x + "</b>") + b;
      Delimited(out, "__", '\n', "<b>", "</b>") == out
  {
    var out := a + ("<b>" + x + "</b>") + b;
    assert '_' !in out;
    NotFound(out, "__");
    NoSpans(out, "__", "<b>", "</b>");
  }

  lemma {:induction false} CodePasses(a: string, x: string, b: string)
    requires Quiet(a) && Quiet(x) && Quiet(b) && x != "" && '\n' !in x
    ensures Code(Bold(a + ("`" + (x + ("`" + b))))) == a + ("<code>" + x + "</code>") + b
  {
    var s := a + ("`" + (x + ("`" + b)));
    DelimitedIsQuietBefore(a, "`", x, b);
    NotFound(s, "__");
    BoldLeaves(s);
    SpanMarked(a, "`", x, b, "<code>", "</code>");
  }

  lemma {:induction false} BoldThenCode(a: string, d: string, x: string, b: string)
    requires d in ["**", "__"] && Quiet(a) && Quiet(x) && Quiet(b) && x != "" && '\n' !in x
    ensures Code(Bold(a + (d + (x + (d + b))))) == a + ("<b>" + x + "</b>") + b
  {
    BoldPasses(a, d, x, b);
    CodeLeaves(a + ("<b>" + x + "</b>") + b);
  }

  lemma {:induction false} SpanPasses(a: string, d: string, x: string, b: string)
    requires d in ["**", "__", "`"] && Quiet(a) && Quiet(x) && Quiet(b) && x != "" && '\n' !in x
    ensures Spans(a + (d + (x + (d + b))))
         == a + (if d == "`" then "<code>" + x + "</code>" else "<b>" + x + "</b>") + b
  {
    DelimitedIsQuietBefore(a, d, x, b);
    NoHeadings(a + (d + (x + (d + b))));
    NoLinks(a + (d + (x + (d + b))));
    if d == "`" {
      CodePasses(a, x, b);
    } else {
      BoldThenCode(a, d, x, b);
    }
  }

  lemma {:induction false} TicksApart(before: string, x: string, after: string, d: string, k: nat)
    requires d in ["**", "__", "`"] && Ordinary(before) && Ordinary(x) && Ordinary(after) && x != ""
    requires k + 1 < |before + (d + (x + (d + after)))|
    ensures var s := before + (d + (x + (d + after))); !(s[k] == '`' && s[k + 1] == '`')
  {
  }

  lemma {:induction false} SpanHasNoFence(before: string, d: string, x: string, after: string)
    requires d in ["**", "__", "`"] && Ordinary(before) && Ordinary(x) && Ordinary(after) && x != ""
    ensures Find(before + (d + (x + (d + after))), FENCE) == None
  {
    var s := before + (d + (x + (d + after)));
    FindIsFirst(s, FENCE);
    var found := Find(s, FENCE);
    if found.Some? {
      FirstTwo(s, FENCE, found.value);
      TicksApart(before, x, after, d, found.value);
    }
  }

  lemma {:induction false} EscapedSpanPasses(before: string, d: string, x: string, after: string)
    requires d in ["**", "__", "`"] && Ordinary(before) && Ordinary(x) && Ordinary(after) && x != "" && '\n' !in x
    ensures Spans(EscapeHtml(before) + (d + (EscapeHtml(x) + (d + EscapeHtml(after)))))
         == EscapeHtml(before)
            + (if d == "`" then "<code>" + EscapeHtml(x) + "</code>" else "<b>" + EscapeHtml(x) + "</b>")
            + EscapeHtml(after)
  {
    OrdinaryIsQuiet(before);
    OrdinaryIsQuiet(x);
    OrdinaryIsQuiet(after);
    EscapedNonEmpty(x);
    EscapedChars(x, '\n');
    SpanPasses(EscapeHtml(before), d, EscapeHtml(x), EscapeHtml(after));
  }

  /** Between ordinary texts, `**x**` and `__x__` become bold and a backtick span becomes code. */
  lemma {:induction false} SpanConverted(before: string, d: string, x: string, after: string)
    requires d in ["**", "__", "`"] && Ordinary(before) && Ordinary(x) && Ordinary(after)
    requires x != "" && '\n' !in x
    ensures MarkdownToHtml(before + (d + (x + (d + after))))
         == EscapeHtml(before)
            + (if d == "`" then "<code>" + EscapeHtml(x) + "</code>" else "<b>" + EscapeHtml(x) + "</b>")
            + EscapeHtml(after)
  {
    SpanHasNoFence(before, d, x, after);
    WithoutFences(before + (d + (x + (d + after))));
    EscapedSpan(before, d, x, after);
    EscapedSpanPasses(before, d, x, after);
  }

  // ---------- A link ----------

  lemma {:induction false} PrefixEscaped(p: string, s: string)
    requires p <= s && forall i :: 0 <= i < |p| ==> EscapeChar(p[i]) == [p[i]]
    ensures p <= EscapeHtml(s)
  {
    EscapePlain(p);
    EscapeConcat(p, s[|p|..]);
    assert s == p + s[|p|..];
  }

  lemma {:induction false} EscapedHasNoBlank(s: string)
    requires forall i :: 0 <= i < |s| ==> !IsWhitespace(s[i])
    ensures forall i :: 0 <= i < |EscapeHtml(s)| ==> !IsWhitespace(EscapeHtml(s)[i])
  {
    if s != "" {
      EscapedHasNoBlank(s[1..]);
      var first := EscapeChar(s[0]);
      assert forall i :: 0 <= i < |first| ==> !IsWhitespace(first[i]);
    }
  }

  lemma {:induction false} EscapedLink(caption: string, url: string)
    requires LinkRegex.IsLink(caption, url)
    ensures LinkRegex.IsLink(EscapeHtml(caption), EscapeHtml(url))
  {
    EscapedNonEmpty(caption);
    EscapedChars(caption, ']');
    EscapedChars(url, ')');
    EscapedHasNoBlank(url);
    EscapedScheme(url);
  }

  lemma {:induction false} EscapedScheme(url: string)
    requires "http://" <= url || "https://" <= url
    ensures "http://" <= EscapeHtml(url) || "https://" <= EscapeHtml(url)
  {
    PrefixEscaped(if "http://" <= url then "http://" else "https://", url);
  }

  lemma {:induction false} LinkEscaped(before: string, caption: string, url: string, after: string)
    ensures EscapeHtml(before + ("[" + (caption + ("](" + (url + (")" + after))))))
         == EscapeHtml(before)
            + ("[" + (EscapeHtml(caption) + ("](" + (EscapeHtml(url) + (")" + EscapeHtml(after))))))
  {
    EscapeAround(before, "[", caption + ("](" + (url + (")" + after))));
    EscapeAround(caption, "](", url + (")" + after));
    EscapeAround(url, ")", after);
  }

  lemma {:induction false} LinkHashes(a: string, c: string, u: string, b: string)
    requires HashesInEntities(a) && HashesInEntities(c) && HashesInEntities(u) && HashesInEntities(b)
    ensures HashesInEntities(a + ("[" + (c + ("](" + (u + (")" + b))))))
  {
    QuietHashesConcat(")", b);
    QuietHashesConcat(u, ")" + b);
    QuietHashesConcat("](", u + (")" + b));
    QuietHashesConcat(c, "](" + (u + (")" + b)));
    QuietHashesConcat("[", c + ("](" + (u + (")" + b))));
    QuietHashesConcat(a, "[" + (c + ("](" + (u + (")" + b)))));
  }

  lemma {:induction false} CalmAnchor(a: string, c: string, u: string, b: string)
    requires Calm(a) && Calm(c) && Calm(u) && Calm(b)
    ensures Calm(a + ("<a href=\"" + u + "\">" + c + "</a>") + b)
  {
    CalmConcat("<a href=\"", u);
    CalmConcat("<a href=\"" + u, "\">");
    CalmConcat("<a href=\"" + u + "\">", c);
    CalmConcat("<a href=\"" + u + "\">" + c, "</a>");
    CalmConcat(a, "<a href=\"" + u + "\">" + c + "</a>");
    CalmConcat(a + ("<a href=\"" + u + "\">" + c + "</a>"), b);
  }

  lemma {:induction false} LinkPasses(a: string, c: string, u: string, b: string)
    requires Quiet(a) && Quiet(c) && Quiet(u) && Quiet(b) && LinkRegex.IsLink(c, u)
    ensures Spans(a + ("[" + (c + ("](" + (u + (")" + b)))))) == a + ("<a href=\"" + u + "\">" + c + "</a>") + b
  {
    var s := a + ("[" + (c + ("](" + (u + (")" + b)))));
    LinkHashes(a, c, u, b);
    NoHeadings(s);
    LinkRegex.FirstBracketBecomesAnchor(a, c, u, b);
    NoLinks(b);
    CalmAnchor(a, c, u, b);
    CalmAfter(s, s, a + ("<a href=\"" + u + "\">" + c + "</a>") + b);
  }

  /** Between ordinary texts a link becomes an anchor. */
  lemma {:induction false} LinkConverted(before: string, caption: string, url: string, after: string)
    requires Ordinary(before) && Ordinary(caption) && Ordinary(url) && Ordinary(after)
    requires LinkRegex.IsLink(caption, url)
    ensures MarkdownToHtml(before + ("[" + (caption + ("](" + (url + (")" + after))))))
         == EscapeHtml(before)
            + ("<a href=\"" + EscapeHtml(url) + "\">" + EscapeHtml(caption) + "</a>") + EscapeHtml(after)
  {
    var text := before + ("[" + (caption + ("](" + (url + (")" + after)))));
    NotFound(text, FENCE);
    WithoutFences(text);
    LinkEscaped(before, caption, url, after);
    EscapedLinkPasses(before, caption, url, after);
  }

  lemma {:induction false} EscapedLinkPasses(before: string, caption: string, url: string, after: string)
    requires Ordinary(before) && Ordinary(caption) && Ordinary(url) && Ordinary(after)
    requires LinkRegex.IsLink(caption, url)
    ensures Spans(EscapeHtml(before)
                  + ("[" + (EscapeHtml(caption) + ("](" + (EscapeHtml(url) + (")" + EscapeHtml(after)))))))
         == EscapeHtml(before)
            + ("<a href=\"" + EscapeHtml(url) + "\">" + EscapeHtml(caption) + "</a>") + EscapeHtml(after)
  {
    OrdinaryIsQuiet(before);
    OrdinaryIsQuiet(caption);
    OrdinaryIsQuiet(url);
    OrdinaryIsQuiet(after);
    EscapedLink(caption, url);
    LinkPasses(EscapeHtml(before), EscapeHtml(caption), EscapeHtml(url), EscapeHtml(after));
  }

  // ---------- A heading ----------

  lemma {:induction false} LeadingRun(a: string, rest: string, p: char -> bool, limit: nat)
    requires |a| <= limit && (forall i :: 0 <= i < |a| ==> p(a[i]))
    requires |a| == limit || rest == "" || !p(rest[0])
    ensures Leading(a + rest, p, limit) == |a|
  {
    if a == "" {
      assert a + rest == rest;
    } else {
      assert (a + rest)[1..] == a[1..] + rest;
      LeadingRun(a[1..], rest, p, limit - 1);
    }
  }

  function Hashes(h: nat): string {
    seq(h, i => '#')
  }

  lemma {:induction false} HeadingIs(h: nat, title: string)
    requires 1 <= h <= 6 && title != "" && !IsWhitespace(title[0])
    ensures Heading(Hashes(h) + (" " + title), IsWhitespace, IsHash) == Some(title)
  {
    var line := Hashes(h) + (" " + title);
    LeadingRun("", line, IsWhitespace, 3);
    assert "" + line == line && line[0..] == line;
    LeadingRun(Hashes(h), " " + title, IsHash, 6);
    assert line[h..] == " " + title;
    LeadingRun(" ", title, IsWhitespace, |" " + title|);
    assert (" " + title)[1..] == title;
  }

  lemma {:induction false} EscapedEnds(s: string)
    requires s != "" && !IsWhitespace(s[0]) && !IsWhitespace(s[|s| - 1])
    ensures var e := EscapeHtml(s);
      e != "" && !IsWhitespace(e[0]) && !IsWhitespace(e[|e| - 1])
  {
    var last := EscapeChar(s[|s| - 1]);
    EscapeConcat(s[..|s| - 1], [s[|s| - 1]]);
    assert s == s[..|s| - 1] + [s[|s| - 1]];
    assert EscapeHtml([s[|s| - 1]]) == last + "";
    assert !IsWhitespace(last[|last| - 1]) && !IsWhitespace(EscapeChar(s[0])[0]);
  }

  lemma {:induction false} OneHeading(h: nat, t: string)
    requires 1 <= h <= 6 && '\n' !in t && t != "" && !IsWhitespace(t[0]) && !IsWhitespace(t[|t| - 1])
    ensures MarkedHeadings(Hashes(h) + (" " + t)) == "<b>" + t + "</b>"
  {
    var line := Hashes(h) + (" " + t);
    HeadingIs(h, t);
    assert '\n' !in line;
    assert SplitOnce(line, '\n').Some? ==> '\n' in line;
    assert TrimStart(t, IsWhitespace) == t && TrimEnd(t, IsWhitespace) == t;
  }

  lemma {:induction false} HeadingPasses(h: nat, t: string)
    requires 1 <= h <= 6 && Quiet(t) && '\n' !in t && t != ""
    requires !IsWhitespace(t[0]) && !IsWhitespace(t[|t| - 1])
    ensures Spans(Hashes(h) + (" " + t)) == "<b>" + t + "</b>"
  {
    var out := "<b>" + t + "</b>";
    OneHeading(h, t);
    BoldIsCalm(t);
    NoLinks(out);
    CalmAfter(Hashes(h) + (" " + t), out, out);
  }

  lemma {:induction false} BoldIsCalm(t: string)
    requires Calm(t) && '[' !in t
    ensures Calm("<b>" + t + "</b>") && '[' !in "<b>" + t + "</b>"
  {
    CalmConcat("<b>", t);
    CalmConcat("<b>" + t, "</b>");
  }

  lemma {:induction false} HeadingEscaped(h: nat, title: string)
    ensures EscapeHtml(Hashes(h) + (" " + title)) == Hashes(h) + (" " + EscapeHtml(title))
  {
    EscapeConcat(Hashes(h), " " + title);
    EscapeConcat(" ", title);
    EscapePlain(Hashes(h));
    EscapePlain(" ");
  }

  lemma {:induction false} EscapedHeadingPasses(h: nat, title: string)
    requires 1 <= h <= 6 && Ordinary(title) && '\n' !in title && title != ""
    requires !IsWhitespace(title[0]) && !IsWhitespace(title[|title| - 1])
    ensures Spans(Hashes(h) + (" " + EscapeHtml(title))) == "<b>" + EscapeHtml(title) + "</b>"
  {
    OrdinaryIsQuiet(title);
    EscapedEnds(title);
    EscapedChars(title, '\n');
    HeadingPasses(h, EscapeHtml(title));
  }

  /** One to six hashes, a blank and a title become the title in bold. */
  lemma {:induction false} HeadingConverted(h: nat, title: string)
    requires 1 <= h <= 6 && Ordinary(title) && '\n' !in title && title != ""
    requires !IsWhitespace(title[0]) && !IsWhitespace(title[|title| - 1])
    ensures MarkdownToHtml(Hashes(h) + (" " + title)) == "<b>" + EscapeHtml(title) + "</b>"
  {
    var text := Hashes(h) + (" " + title);
    NotFound(text, FENCE);
    WithoutFences(text);
    HeadingEscaped(h, title);
    EscapedHeadingPasses(h, title);
  }

  // ---------- A code block ----------

  lemma {:induction false} InfoEnds(text: string, from: nat, end: nat)
    requires from <= end < |text| && text[end] == '\n'
    requires forall k :: from <= k < end ==> text[k] != '\n' && text[k] != '`'
    ensures ContentStart(text, from) == Some(end + 1)
    decreases end - from
  {
    if from < end {
      InfoEnds(text, from + 1, end);
    }
  }

  /** Where the parts of a fenced block lie. */
  lemma {:induction false} FenceParts(before: string, info: string, body: string, after: string) returns (start: nat)
    ensures var text := before + (FENCE + (info + ("\n" + (body + (FENCE + after)))));
      && start == |before| + 3 + |info| + 1 && start + |body| + 3 <= |text|
      && text[..|before|] == before && text[start - 1] == '\n'
      && text[start..] == body + (FENCE + after)
      && text[start..start + |body|] == body && text[start + |body| + 3..] == after
      && forall k :: |before| + 3 <= k < start - 1 ==> text[k] in info
  {
    start := |before| + 3 + |info| + 1;
    var text := before + (FENCE + (info + ("\n" + (body + (FENCE + after)))));
    assert forall k :: |before| + 3 <= k < start - 1 ==> text[k] == info[k - |before| - 3];
  }

  lemma {:induction false} FenceFound(before: string, info: string, body: string, after: string) returns (start: nat)
    requires '`' !in before && '`' !in info && '\n' !in info && '`' !in body
    ensures var text := before + (FENCE + (info + ("\n" + (body + (FENCE + after)))));
      && start + |body| + 3 <= |text| && text[..|before|] == before
      && text[start..start + |body|] == body && text[start + |body| + 3..] == after
      && NextFence(text) == Fence(|before|, start, start + |body|)
  {
    var inner := info + ("\n" + (body + (FENCE + after)));
    var text := before + (FENCE + inner);
    start := FenceParts(before, info, body, after);
    FoundAfter(before, FENCE, inner);
    FenceFoundIn(text, |before|, info, start, body, after);
  }

  lemma {:induction false} FenceFoundIn(
      text: string, open: nat, info: string, start: nat, body: string, after: string)
    requires open + 3 < start <= |text| && Find(text, FENCE) == Some(open) && text[start - 1] == '\n'
    requires '`' !in info && '\n' !in info && forall k :: open + 3 <= k < start - 1 ==> text[k] in info
    requires text[start..] == body + (FENCE + after) && '`' !in body
    ensures NextFence(text) == Fence(open, start, start + |body|)
  {
    InfoEnds(text, open + 3, start - 1);
    BodyEnds(text, start, body, after);
    NextFenceAt(text, open, start, |body|);
  }

  lemma {:induction false} BodyEnds(text: string, start: nat, body: string, after: string)
    requires start <= |text| && text[start..] == body + (FENCE + after) && '`' !in body
    ensures Find(text[start..], FENCE) == Some(|body|)
  {
    FoundAfter(body, FENCE, after);
  }

  lemma {:induction false} NextFenceAt(text: string, open: nat, start: nat, length: nat)
    requires Find(text, FENCE) == Some(open) && ContentStart(text, open + 3) == Some(start)
    requires Find(text[start..], FENCE) == Some(length)
    ensures NextFence(text) == Fence(open, start, start + length)
  {
  }

  lemma {:induction false} OneFence(before: string, info: string, body: string, after: string)
    requires '`' !in before && '`' !in info && '\n' !in info && '`' !in body && '`' !in after
    ensures Fences(before + (FENCE + (info + ("\n" + (body + (FENCE + after)))))) == Block(before, body, End(after))
  {
    var text := before + (FENCE + (info + ("\n" + (body + (FENCE + after)))));
    var start := FenceFound(before, info, body, after);
    NoFenceIsEnd(after);
    BlockThenEnd(text, |before|, start, start + |body|, after);
  }

  lemma {:induction false} BlockThenEnd(text: string, open: nat, start: nat, close: nat, after: string)
    requires NextFence(text) == Fence(open, start, close) && text[close + 3..] == after && Fences(after) == End(after)
    ensures Fences(text) == Block(text[..open], text[start..close], End(after))
  {
    FencesAt(text, open, start, close);
  }

  lemma {:induction false} NoFenceIsEnd(text: string)
    requires '`' !in text
    ensures Fences(text) == End(text)
  {
    NotFound(text, FENCE);
  }

  lemma {:induction false} NoDoubleUnderscore(a: string, b: string)
    requires '_' !in a && '_' !in b
    ensures Find(a + (Placeholder(0) + b), "__") == None
  {
    var w := Placeholder(0);
    var s := a + (w + b);
    assert w == "@@TG_CODEBLOCK_0@@";
    FindIsFirst(s, "__");
    assert forall k :: 0 <= k < |s| && s[k] == '_' ==> k == |a| + 4 || k == |a| + 14;
    var found := Find(s, "__");
    if found.Some? {
      FirstTwo(s, "__", found.value);
    }
  }

  lemma {:induction false} PlaceholderIsPlain(a: string, b: string)
    requires Quiet(a) && Quiet(b)
    ensures var s := a + (Placeholder(0) + b);
      HashesInEntities(s) && '[' !in s && '*' !in s && '`' !in s
  {
    var w := Placeholder(0);
    assert w == "@@TG_CODEBLOCK_0@@";
    QuietHashesConcat(w, b);
    QuietHashesConcat(a, w + b);
  }

  lemma {:induction false} PlaceholderPasses(a: string, b: string)
    requires Quiet(a) && Quiet(b)
    ensures Spans(a + (Placeholder(0) + b)) == a + (Placeholder(0) + b)
  {
    var s := a + (Placeholder(0) + b);
    PlaceholderIsPlain(a, b);
    NoDoubleUnderscore(a, b);
    NoHeadings(s);
    NoLinks(s);
    BoldLeaves(s);
    CodeLeaves(s);
  }

  lemma {:induction false} Restored(a: string, b: string, block: string)
    requires '@' !in a && '@' !in b
    ensures RestoreBlocks(a + (Placeholder(0) + b), [block], 0) == a + block + b
  {
    var w := Placeholder(0);
    var s := a + (w + b);
    FoundAfter(a, w, b);
    NotFound(b, w);
    assert s[..|a|] == a && s[|a| + |w|..] == b;
    assert ReplaceAll(b, w, block) == b;
    assert ReplaceAll(s, w, block) == a + block + b;
  }

  /** Between ordinary texts a fenced block becomes a code block: its text, without the newlines around
      it, escaped and otherwise as it is. */
  lemma {:induction false} FenceConverted(
      before: string, info: string, above: string, code: string, below: string, after: string)
    requires Ordinary(before) && Ordinary(after) && '`' !in info && '\n' !in info
    requires forall i :: 0 <= i < |above| ==> above[i] == '\n'
    requires forall i :: 0 <= i < |below| ==> below[i] == '\n'
    requires '`' !in code && code != "" && code[0] != '\n' && code[|code| - 1] != '\n'
    ensures MarkdownToHtml(before + ("```" + (info + ("\n" + ((above + code + below) + ("```" + after))))))
         == EscapeHtml(before) + ("<pre><code>" + EscapeHtml(code) + "</code></pre>") + EscapeHtml(after)
  {
    var body := above + code + below;
    assert CutsTo(body, |above|, |above| + |code|, IsNewline);
    assert body[|above|..|above| + |code|] == code;
    TrimIsTrimsTo(body, IsNewline);
    OneTrim(body, code, Trim(body, IsNewline), IsNewline);
    BlockConverted(before, info, body, after);
  }

  lemma {:induction false} BlockConverted(before: string, info: string, body: string, after: string)
    requires Ordinary(before) && Ordinary(after) && '`' !in info && '\n' !in info && '`' !in body
    ensures MarkdownToHtml(before + ("```" + (info + ("\n" + (body + ("```" + after))))))
         == EscapeHtml(before) + CodeBlock(body) + EscapeHtml(after)
  {
    var a, b := EscapeHtml(before), EscapeHtml(after);
    OneFence(before, info, body, after);
    OutlineOfOne(before, body, after);
    PlaceholderEscaped(before, after);
    OrdinaryIsQuiet(before);
    OrdinaryIsQuiet(after);
    PlaceholderPasses(a, b);
    Restored(a, b, CodeBlock(body));
  }

  lemma {:induction false} PlaceholderEscaped(before: string, after: string)
    ensures EscapeHtml(before + (Placeholder(0) + after))
         == EscapeHtml(before) + (Placeholder(0) + EscapeHtml(after))
  {
    EscapeConcat(before, Placeholder(0) + after);
    EscapeConcat(Placeholder(0), after);
    EscapePlaceholder(0);
  }

  lemma {:induction false} OutlineOfOne(before: string, body: string, after: string)
    ensures var doc := Block(before, body, End(after));
      Outline(doc, 0) == before + (Placeholder(0) + after) && CodeBlocks(doc) == [CodeBlock(body)]
  {
    assert before + Placeholder(0) + after == before + (Placeholder(0) + after);
  }
}
