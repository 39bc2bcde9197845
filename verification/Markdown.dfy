/** Markdown to Telegram HTML: fenced blocks are set aside, the rest is escaped and tagged, and the
    blocks are put back. Functions say what each pass computes; the methods are its scanning loops. */
module Markdown {
  import opened Prelude
  import opened Text

  // ---------- Fenced blocks ----------

  /** A text cut at its fenced blocks. */
  datatype Doc = End(tail: string) | Block(before: string, body: string, rest: Doc)

  function Prepend(x: string, doc: Doc): Doc {
    match doc
    case End(tail) => End(x + tail)
    case Block(before, body, rest) => Block(x + before, body, rest)
  }

  function ContentStart(text: string, from: nat): (start: Option<nat>)
    requires from <= |text|
    ensures start.Some? ==> from < start.value <= |text|
    decreases |text| - from
  {
    if from == |text| || text[from] == '`' then None
    else if text[from] == '\n' then Some(from + 1)
    else ContentStart(text, from + 1)
  }

  const FENCE := "```"

  /** What the scanner does with the next run of backticks. */
  datatype FenceRound = NoFence | Skip(length: nat) | Fence(open: nat, start: nat, close: nat)

  function NextFence(text: string): (r: FenceRound)
    ensures r.Skip? ==> 0 < r.length <= |text|
    ensures r.Fence? ==> r.open + 3 < r.start <= r.close && r.close + 3 <= |text|
  {
    match Find(text, FENCE)
    case None => NoFence
    case Some(open) =>
      match ContentStart(text, open + 3)
      case None => Skip(open + 1)
      case Some(start) =>
        match Find(text[start..], FENCE)
        case None => Skip(open + 1)
        case Some(length) => Fence(open, start, start + length)
  }

  function Fences(text: string): Doc
    decreases |text|
  {
    match NextFence(text)
    case NoFence => End(text)
    case Skip(length) => Prepend(text[..length], Fences(text[length..]))
    case Fence(open, start, close) => Block(text[..open], text[start..close], Fences(text[close + 3..]))
  }

  function Placeholder(k: nat): string {
    "@@TG_CODEBLOCK_" + Decimal(k) + "@@"
  }

  /** The text with its blocks replaced by numbered placeholders. */
  function Outline(doc: Doc, k: nat): string {
    match doc
    case End(tail) => tail
    case Block(before, body, rest) => before + Placeholder(k) + Outline(rest, k + 1)
  }

  function CodeBlock(body: string): string {
    "<pre><code>" + EscapeHtml(Trim(body, IsNewline)) + "</code></pre>"
  }

  function CodeBlocks(doc: Doc): seq<string> {
    match doc
    case End(tail) => []
    case Block(before, body, rest) => [CodeBlock(body)] + CodeBlocks(rest)
  }

  predicate IsNewline(c: char) {
    c == '\n'
  }

  // ---------- Escaping ----------

  function EscapeChar(c: char): string {
    match c
    case '&' => "&amp;"
    case '<' => "&lt;"
    case '>' => "&gt;"
    case '"' => "&quot;"
    case '\'' => "&#x27;"
    case _ => [c]
  }

  function EscapeHtml(text: string): string {
    if text == "" then "" else EscapeChar(text[0]) + EscapeHtml(text[1..])
  }

  // ---------- Headings ----------

  /** How many leading elements, at most `limit`, satisfy p. */
  function Leading<T>(s: seq<T>, p: T -> bool, limit: nat): (n: nat)
    ensures n <= |s| && n <= limit
  {
    if limit == 0 || s == [] || !p(s[0]) then 0 else 1 + Leading(s[1..], p, limit - 1)
  }

  /** The text of a heading line: up to three blanks, one to six hashes, blanks, then the text,
      or the last blank when nothing follows. */
  function Heading<T>(line: seq<T>, blank: T -> bool, hash: T -> bool): Option<seq<T>> {
    var unindented := line[Leading(line, blank, 3)..];
    var hashes := Leading(unindented, hash, 6);
    var rest := unindented[hashes..];
    var blanks := Leading(rest, blank, |rest|);
    if hashes == 0 || blanks == 0 then None else Some(TitleFrom(rest, blanks))
  }

  function TitleFrom<T>(rest: seq<T>, blanks: nat): seq<T>
    requires 0 < blanks <= |rest|
  {
    if blanks < |rest| then rest[blanks..] else rest[blanks - 1..]
  }

  function HeadingLine<T>(line: seq<T>, blank: T -> bool, hash: T -> bool, open: seq<T>, close: seq<T>): seq<T> {
    match Heading(line, blank, hash)
    case None => line
    case Some(title) => open + Trim(title, blank) + close
  }

  /** One round of a rewriting pass: what it writes, and what is left to read. */
  datatype Round<T> = Last(out: seq<T>) | More(out: seq<T>, rest: seq<T>)

  function HeadingRound<T(==)>(s: seq<T>, newline: T, blank: T -> bool, hash: T -> bool, open: seq<T>, close: seq<T>)
      : (r: Round<T>)
    ensures r.More? ==> |r.rest| < |s|
  {
    match SplitOnce(s, newline)
    case None => Last(HeadingLine(s, blank, hash, open, close))
    case Some(cut) => More(HeadingLine(cut.before, blank, hash, open, close) + [newline], cut.after)
  }

  function Headings<T(==)>(
      s: seq<T>, newline: T, blank: T -> bool, hash: T -> bool, open: seq<T>, close: seq<T>): seq<T>
    decreases |s|
  {
    match HeadingRound(s, newline, blank, hash, open, close)
    case Last(out) => out
    case More(out, rest) => out + Headings(rest, newline, blank, hash, open, close)
  }

  predicate IsHash(c: char) {
    c == '#'
  }

  // ---------- Links ----------

  datatype LinkSyntax<T> = LinkSyntax(
    openLabel: T, closeLabel: T, openUrl: T, closeUrl: T, start: seq<T>, middle: seq<T>, end: seq<T>)

  predicate UrlOk(url: string) {
    && url != ""
    && ("http://" <= url || "https://" <= url)
    && !(exists i :: 0 <= i < |url| && IsWhitespace(url[i]))
  }

  datatype Link<T> = Link(caption: seq<T>, url: seq<T>, rest: seq<T>)

  /** The link whose opening bracket stands right before s. */
  function LinkFrom<T(==)>(s: seq<T>, x: LinkSyntax<T>, urlOk: seq<T> -> bool): (r: Option<Link<T>>)
    ensures r.Some? ==> |r.value.rest| < |s|
  {
    match SplitOnce(s, x.closeLabel)
    case None => None
    case Some(cut) =>
      if cut.after == [] || cut.after[0] != x.openUrl then None else LinkWith(cut.before, cut.after[1..], x, urlOk)
  }

  function LinkWith<T(==)>(caption: seq<T>, s: seq<T>, x: LinkSyntax<T>, urlOk: seq<T> -> bool): (r: Option<Link<T>>)
    ensures r.Some? ==> |r.value.rest| < |s|
  {
    match SplitOnce(s, x.closeUrl)
    case None => None
    case Some(cut) =>
      if caption != [] && urlOk(cut.before) then Some(Link(caption, cut.before, cut.after)) else None
  }

  function LinkRound<T(==)>(s: seq<T>, x: LinkSyntax<T>, urlOk: seq<T> -> bool): (r: Round<T>)
    ensures r.More? ==> |r.rest| < |s|
  {
    match SplitOnce(s, x.openLabel)
    case None => Last(s)
    case Some(cut) => LinkOrBracket(cut.before, cut.after, LinkFrom(cut.after, x, urlOk), x)
  }

  function LinkOrBracket<T>(before: seq<T>, after: seq<T>, link: Option<Link<T>>, x: LinkSyntax<T>): Round<T> {
    match link
    case None => More(before + [x.openLabel], after)
    case Some(found) => More(before + Anchor(x, found.url, found.caption), found.rest)
  }

  function Anchor<T>(x: LinkSyntax<T>, url: seq<T>, caption: seq<T>): seq<T> {
    x.start + url + x.middle + caption + x.end
  }

  function Links<T(==)>(s: seq<T>, x: LinkSyntax<T>, urlOk: seq<T> -> bool): seq<T>
    decreases |s|
  {
    match LinkRound(s, x, urlOk)
    case Last(out) => out
    case More(out, rest) => out + Links(rest, x, urlOk)
  }

  // ---------- Delimited spans ----------

  /** The length of the span that starts at the head of `content`, if it closes on its line. */
  function Span<T(==)>(content: seq<T>, delimiter: seq<T>, newline: T): (r: Option<nat>)
    ensures r.Some? ==> 0 < r.value && r.value + |delimiter| <= |content|
  {
    var close := Find(content, delimiter);
    var eol := Find(content, [newline]);
    if close.Some? && close.value > 0 && (eol.None? || close.value < eol.value) then close else None
  }

  function DelimitedRound<T(==)>(s: seq<T>, delimiter: seq<T>, newline: T, open: seq<T>, close: seq<T>): (r: Round<T>)
    requires delimiter != []
    ensures r.More? ==> |r.rest| < |s|
  {
    match Find(s, delimiter)
    case None => Last(s)
    case Some(i) =>
      var content := s[i + |delimiter|..];
      SpanOrDelimiter(s[..i], delimiter, content, Span(content, delimiter, newline), open, close)
  }

  function SpanOrDelimiter<T>(
      before: seq<T>, delimiter: seq<T>, content: seq<T>, span: Option<nat>, open: seq<T>, close: seq<T>): (r: Round<T>)
    requires span.Some? ==> span.value + |delimiter| <= |content|
    ensures r.More? && |r.rest| <= |content|
  {
    match span
    case None => More(before + delimiter, content)
    case Some(n) => More(before + (open + content[..n] + close), content[n + |delimiter|..])
  }

  function Delimited<T(==)>(s: seq<T>, delimiter: seq<T>, newline: T, open: seq<T>, close: seq<T>): seq<T>
    requires delimiter != []
    decreases |s|
  {
    match DelimitedRound(s, delimiter, newline, open, close)
    case Last(out) => out
    case More(out, rest) => out + Delimited(rest, delimiter, newline, open, close)
  }

  // ---------- The whole conversion ----------

  const LINKS: LinkSyntax<char> := LinkSyntax('[', ']', '(', ')', "<a href=\"", "\">", "</a>")

  function RestoreBlocks(s: string, blocks: seq<string>, k: nat): string
    requires k <= |blocks|
    decreases |blocks| - k
  {
    if k == |blocks| then s else RestoreBlocks(ReplaceAll(s, Placeholder(k), blocks[k]), blocks, k + 1)
  }

  function MarkedHeadings(s: string): string {
    Headings(s, '\n', IsWhitespace, IsHash, "<b>", "</b>")
  }

  function Bold(s: string): string {
    Delimited(Delimited(s, "**", '\n', "<b>", "</b>"), "__", '\n', "<b>", "</b>")
  }

  function Code(s: string): string {
    Delimited(s, "`", '\n', "<code>", "</code>")
  }

  /** The passes over escaped text. */
  function Spans(escaped: string): string {
    Code(Bold(Links(MarkedHeadings(escaped), LINKS, UrlOk)))
  }

  function MarkdownToHtml(text: string): string {
    var doc := Fences(text);
    RestoreBlocks(Spans(EscapeHtml(Outline(doc, 0))), CodeBlocks(doc), 0)
  }

  // ---------- The program ----------

  method FencedContentStart(text: string, afterOpen: nat) returns (start: Option<nat>)
    requires afterOpen <= |text|
    ensures start == ContentStart(text, afterOpen)
  {
    var idx := afterOpen;
    while idx < |text|
      invariant afterOpen <= idx <= |text|
      invariant ContentStart(text, idx) == ContentStart(text, afterOpen)
    {
      if text[idx] == '\n' {
        return Some(idx + 1);
      }
      if text[idx] == '`' {
        return None;
      }
      idx := idx + 1;
    }
    return None;
  }

  lemma {:induction false} PrependOutline(x: string, doc: Doc, k: nat)
    ensures Outline(Prepend(x, doc), k) == x + Outline(doc, k)
    ensures CodeBlocks(Prepend(x, doc)) == CodeBlocks(doc)
  {
  }

  /** What the scanner has written and kept so far, together with what the rest will give. */
  ghost predicate Captured(text: string, output: string, blocks: seq<string>, rest: Doc) {
    && output + Outline(rest, |blocks|) == Outline(Fences(text), 0)
    && blocks + CodeBlocks(rest) == CodeBlocks(Fences(text))
  }

  lemma {:induction false} CapturedSkip(text: string, output: string, blocks: seq<string>, x: string, rest: Doc)
    requires Captured(text, output, blocks, Prepend(x, rest))
    ensures Captured(text, output + x, blocks, rest)
  {
    PrependOutline(x, rest, |blocks|);
    assert output + x + Outline(rest, |blocks|) == output + (x + Outline(rest, |blocks|));
  }

  lemma {:induction false} CapturedBlock(
      text: string, output: string, blocks: seq<string>, before: string, body: string, rest: Doc)
    requires Captured(text, output, blocks, Block(before, body, rest))
    ensures Captured(text, output + before + Placeholder(|blocks|), blocks + [CodeBlock(body)], rest)
  {
    var k := |blocks|;
    assert output + before + Placeholder(k) + Outline(rest, k + 1)
        == output + (before + Placeholder(k) + Outline(rest, k + 1));
    assert blocks + [CodeBlock(body)] + CodeBlocks(rest) == blocks + ([CodeBlock(body)] + CodeBlocks(rest));
  }

  lemma {:induction false} FencesAt(text: string, open: nat, start: nat, close: nat)
    requires NextFence(text) == Fence(open, start, close)
    ensures Fences(text) == Block(text[..open], text[start..close], Fences(text[close + 3..]))
  {
  }

  method CaptureFencedBlocks(text: string) returns (output: string, blocks: seq<string>)
    ensures output == Outline(Fences(text), 0) && blocks == CodeBlocks(Fences(text))
  {
    output, blocks := "", [];
    var rest := text;
    ghost var doc := Fences(text);
    while true
      invariant doc == Fences(rest) && Captured(text, output, blocks, doc)
      decreases |rest|
    {
      var next := LocateFence(rest);
      match next {
        case NoFence =>
          break;
        case Skip(length) =>
          doc := Fences(rest[length..]);
          CapturedSkip(text, output, blocks, rest[..length], doc);
          output := output + rest[..length];
          rest := rest[length..];
        case Fence(open, start, close) =>
          FencesAt(rest, open, start, close);
          doc := Fences(rest[close + 3..]);
          CapturedBlock(text, output, blocks, rest[..open], rest[start..close], doc);
          var block := MarkBlock(rest[start..close]);
          output := output + rest[..open] + Placeholder(|blocks|);
          blocks := blocks + [block];
          rest := rest[close + 3..];
      }
    }
    output := output + rest;
  }

  method MarkBlock(body: string) returns (block: string)
    ensures block == CodeBlock(body)
  {
    var escaped := EscapeHtmlLoop(Trim(body, IsNewline));
    block := "<pre><code>" + escaped + "</code></pre>";
  }

  method LocateFence(text: string) returns (r: FenceRound)
    ensures r == NextFence(text)
  {
    var open := Find(text, FENCE);
    if open.None? {
      return NoFence;
    }
    var contentStart := FencedContentStart(text, open.value + 3);
    if contentStart.None? {
      return Skip(open.value + 1);
    }
    var closeRelative := Find(text[contentStart.value..], FENCE);
    if closeRelative.None? {
      return Skip(open.value + 1);
    }
    return Fence(open.value, contentStart.value, contentStart.value + closeRelative.value);
  }

  method EscapeHtmlLoop(text: string) returns (escaped: string)
    ensures escaped == EscapeHtml(text)
  {
    escaped := "";
    for i := 0 to |text|
      invariant escaped + EscapeHtml(text[i..]) == EscapeHtml(text)
    {
      assert text[i..][1..] == text[i + 1..];
      Associative(escaped, EscapeChar(text[i]), EscapeHtml(text[i + 1..]));
      escaped := escaped + EscapeChar(text[i]);
    }
  }

  method CountLeading(line: string, p: char -> bool, limit: nat) returns (n: nat)
    ensures n == Leading(line, p, limit)
  {
    n := 0;
    while n < |line| && n < limit && p(line[n])
      invariant n <= |line| && n <= limit
      invariant Leading(line, p, limit) == n + Leading(line[n..], p, limit - n)
    {
      assert line[n..][1..] == line[n + 1..];
      n := n + 1;
    }
  }

  method MarkdownHeading(line: string) returns (heading: Option<string>)
    ensures heading == Heading(line, IsWhitespace, IsHash)
  {
    var hashStart := CountLeading(line, IsWhitespace, 3);
    var hashCount := CountLeading(line[hashStart..], IsHash, 6);
    if hashCount == 0 {
      return None;
    }
    var rest := line[hashStart..][hashCount..];
    var whitespaceCount := CountLeading(rest, IsWhitespace, |rest|);
    if whitespaceCount == 0 {
      return None;
    }
    return Some(TitleFrom(rest, whitespaceCount));
  }

  lemma {:induction false} Associative(a: string, b: string, c: string)
    ensures a + b + c == a + (b + c)
  {
  }

  /** Splits at newlines, marks heading lines, and joins again. */
  method MarkHeadings(escaped: string, open: string, close: string) returns (marked: string)
    ensures marked == Headings(escaped, '\n', IsWhitespace, IsHash, open, close)
  {
    marked := "";
    var rest := escaped;
    while true
      invariant marked + Headings(rest, '\n', IsWhitespace, IsHash, open, close)
             == Headings(escaped, '\n', IsWhitespace, IsHash, open, close)
      decreases |rest|
    {
      SplitIsFind(rest, '\n');
      var newline := Find(rest, ['\n']);
      var line := if newline.None? then rest else rest[..newline.value];
      var heading := MarkdownHeading(line);
      var shown := if heading.Some? then open + Trim(heading.value, IsWhitespace) + close else line;
      if newline.None? {
        marked := marked + shown;
        break;
      }
      var next := rest[newline.value + 1..];
      Associative(marked, shown + ['\n'], Headings(next, '\n', IsWhitespace, IsHash, open, close));
      marked := marked + (shown + ['\n']);
      rest := next;
    }
  }

  method ReplaceLinks(input: string, x: LinkSyntax<char>) returns (output: string)
    ensures output == Links(input, x, UrlOk)
  {
    output := "";
    var rest := input;
    while true
      invariant output + Links(rest, x, UrlOk) == Links(input, x, UrlOk)
      decreases |rest|
    {
      var round := OneLink(rest, x);
      if round.Last? {
        output := output + round.out;
        break;
      }
      Associative(output, round.out, Links(round.rest, x, UrlOk));
      output := output + round.out;
      rest := round.rest;
    }
  }

  method OneLink(input: string, x: LinkSyntax<char>) returns (round: Round<char>)
    ensures round == LinkRound(input, x, UrlOk)
  {
    SplitIsFind(input, x.openLabel);
    var open := Find(input, [x.openLabel]);
    if open.None? {
      return Last(input);
    }
    var link := LocateLink(input[open.value + 1..], x);
    return LinkOrBracket(input[..open.value], input[open.value + 1..], link, x);
  }

  /** The checks made once an opening bracket is found. */
  method LocateLink(input: string, x: LinkSyntax<char>) returns (link: Option<Link<char>>)
    ensures link == LinkFrom(input, x, UrlOk)
  {
    SplitIsFind(input, x.closeLabel);
    var labelEnd := Find(input, [x.closeLabel]);
    if labelEnd.None? || !([x.closeLabel, x.openUrl] <= input[labelEnd.value..]) {
      return None;
    }
    var urlStart := labelEnd.value + 2;
    assert input[labelEnd.value + 1..][1..] == input[urlStart..];
    SplitIsFind(input[urlStart..], x.closeUrl);
    var urlEnd := Find(input[urlStart..], [x.closeUrl]);
    if urlEnd.None? {
      return None;
    }
    var caption, url := input[..labelEnd.value], input[urlStart..][..urlEnd.value];
    if caption != "" && UrlOk(url) {
      return Some(Link(caption, url, input[urlStart..][urlEnd.value + 1..]));
    }
    return None;
  }

  method ReplaceDelimited(input: string, delimiter: string, open: string, close: string) returns (output: string)
    requires delimiter != ""
    ensures output == Delimited(input, delimiter, '\n', open, close)
  {
    output := "";
    var rest := input;
    while true
      invariant output + Delimited(rest, delimiter, '\n', open, close)
             == Delimited(input, delimiter, '\n', open, close)
      decreases |rest|
    {
      var round := OneSpan(rest, delimiter, open, close);
      if round.Last? {
        output := output + round.out;
        break;
      }
      Associative(output, round.out, Delimited(round.rest, delimiter, '\n', open, close));
      output := output + round.out;
      rest := round.rest;
    }
  }

  method OneSpan(input: string, delimiter: string, open: string, close: string) returns (round: Round<char>)
    requires delimiter != ""
    ensures round == DelimitedRound(input, delimiter, '\n', open, close)
  {
    var opening := Find(input, delimiter);
    if opening.None? {
      return Last(input);
    }
    var contentStart := opening.value + |delimiter|;
    var content := input[contentStart..];
    var newline := Find(content, ['\n']);
    var closing := Find(content, delimiter);
    var closes := closing.Some? && closing.value > 0 && (newline.None? || closing.value < newline.value);
    return SpanOrDelimiter(input[..opening.value], delimiter, content, if closes then closing else None, open, close);
  }

  lemma {:induction false} EmptyText()
    ensures MarkdownToHtml("") == ""
  {
  }

  method ConvertMarkdown(text: string) returns (html: string)
    ensures html == MarkdownToHtml(text)
  {
    if text == "" {
      EmptyText();
      return "";
    }
    var withoutFenced, blocks := CaptureFencedBlocks(text);
    var escaped := EscapeHtmlLoop(withoutFenced);
    html := MarkHeadings(escaped, "<b>", "</b>");
    html := ReplaceLinks(html, LINKS);
    html := ReplaceDelimited(html, "**", "<b>", "</b>");
    html := ReplaceDelimited(html, "__", "<b>", "</b>");
    html := ReplaceDelimited(html, "`", "<code>", "</code>");
    for idx := 0 to |blocks|
      invariant RestoreBlocks(html, blocks, idx) == MarkdownToHtml(text)
    {
      html := ReplaceAll(html, Placeholder(idx), blocks[idx]);
    }
  }
}
