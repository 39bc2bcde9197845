/** What the rewriting passes leave alone: undoing the marks of a pass gives its input back. */
module RoundTrips {
  import opened Prelude
  import opened Text
  import opened Markdown
  import opened Markup

  // ---------- Escaping ----------

  /** Reads the five entities back. */
  function Unescaped(s: string): string
    decreases |s|
  {
    if s == "" then ""
    else
      var (c, n) := FirstChar(s);
      [c] + Unescaped(s[n..])
  }

  function FirstChar(s: string): (r: (char, nat))
    requires s != ""
    ensures 0 < r.1 <= |s|
  {
    if "&amp;" <= s then ('&', 5)
    else if "&lt;" <= s then ('<', 4)
    else if "&gt;" <= s then ('>', 4)
    else if "&quot;" <= s then ('"', 6)
    else if "&#x27;" <= s then ('\'', 6)
    else (s[0], 1)
  }

  lemma {:induction false} FirstCharOfEscape(c: char, rest: string)
    ensures FirstChar(EscapeChar(c) + rest) == (c, |EscapeChar(c)|)
  {
    var s := EscapeChar(c) + rest;
    assert s[0] == EscapeChar(c)[0];
    if c in "&<>\"'" {
      assert s[1] == EscapeChar(c)[1];
    }
  }

  /** Escaping loses nothing: a reader of the entities sees the text. */
  lemma {:induction false} EscapeRoundTrip(s: string)
    ensures Unescaped(EscapeHtml(s)) == s
  {
    if s != "" {
      var rest := EscapeHtml(s[1..]);
      FirstCharOfEscape(s[0], rest);
      assert (EscapeChar(s[0]) + rest)[|EscapeChar(s[0])|..] == rest;
      EscapeRoundTrip(s[1..]);
    }
  }

  /** No character with a meaning in HTML is left as it is. */
  lemma {:induction false} EscapedIsSafe(s: string)
    ensures var e := EscapeHtml(s); '<' !in e && '>' !in e && '"' !in e && '\'' !in e
  {
    if s != "" {
      EscapedIsSafe(s[1..]);
      assert EscapeChar(s[0]) == [s[0]] || s[0] in "&<>\"'";
    }
  }

  // ---------- Delimited spans ----------

  /** The text with either tag replaced by the delimiter. */
  function Undelimited(u: seq<Symbol>, d: string, open: Tag, close: Tag): seq<Symbol> {
    if u == [] then []
    else (if u[0] == Tg(open) || u[0] == Tg(close) then Chars(d) else [u[0]]) + Undelimited(u[1..], d, open, close)
  }

  ghost predicate Without(t: seq<Symbol>, tags: set<Tag>) {
    forall i :: 0 <= i < |t| && t[i].Tg? ==> t[i].tag !in tags
  }

  lemma {:induction false} UndelimitedConcat(a: seq<Symbol>, b: seq<Symbol>, d: string, open: Tag, close: Tag)
    ensures Undelimited(a + b, d, open, close) == Undelimited(a, d, open, close) + Undelimited(b, d, open, close)
  {
    if a == [] {
      assert a + b == b;
    } else {
      assert (a + b)[1..] == a[1..] + b;
      UndelimitedConcat(a[1..], b, d, open, close);
    }
  }

  lemma {:induction false} UndelimitedPlain(t: seq<Symbol>, d: string, open: Tag, close: Tag)
    requires Without(t, {open, close})
    ensures Undelimited(t, d, open, close) == t
  {
    if t != [] {
      UndelimitedPlain(t[1..], d, open, close);
    }
  }

  lemma {:induction false} UndelimitedSpan(before: seq<Symbol>, inside: seq<Symbol>, d: string, open: Tag, close: Tag)
    requires Without(before, {open, close}) && Without(inside, {open, close})
    ensures Undelimited(before + ([Tg(open)] + inside + [Tg(close)]), d, open, close)
         == before + (Chars(d) + inside + Chars(d))
  {
    var o, c := [Tg(open)], [Tg(close)];
    UndelimitedConcat(before, o + inside + c, d, open, close);
    UndelimitedConcat(o + inside, c, d, open, close);
    UndelimitedConcat(o, inside, d, open, close);
    UndelimitedPlain(before, d, open, close);
    UndelimitedPlain(inside, d, open, close);
    assert o[1..] == [] && c[1..] == [];
  }

  lemma {:induction false} WithoutParts(a: seq<Symbol>, b: seq<Symbol>, tags: set<Tag>)
    ensures Without(a + b, tags) <==> Without(a, tags) && Without(b, tags)
  {
    if Without(a + b, tags) {
      assert forall i :: 0 <= i < |a| ==> (a + b)[i] == a[i];
      assert forall i :: 0 <= i < |b| ==> (a + b)[|a| + i] == b[i];
    }
  }

  lemma {:induction false} ReadingWithout(reading: Reading, t: seq<Symbol>, d: string, tags: set<Tag>)
    requires Without(ReadBack(reading, t, d), tags)
    ensures match reading
            case Whole => Without(t, tags)
            case Bare(before, rest) => Without(before + Chars(d), tags) && Without(rest, tags)
            case Enclosed(before, inside, rest) =>
              Without(before, tags) && Without(inside, tags) && Without(rest, tags)
  {
    match reading
    case Whole =>
    case Bare(before, rest) => WithoutParts(before + Chars(d), rest, tags);
    case Enclosed(before, inside, rest) =>
      WithoutParts(before + (Chars(d) + inside + Chars(d)), rest, tags);
      WithoutParts(before, Chars(d) + inside + Chars(d), tags);
      WithoutParts(Chars(d) + inside, Chars(d), tags);
      WithoutParts(Chars(d), inside, tags);
  }

  /** The pass puts its tags in the place of delimiters and changes nothing else. */
  lemma {:induction false} DelimiterRoundTrip(t: seq<Symbol>, d: string, open: Tag, close: Tag)
    requires d != "" && Without(t, {open, close})
    ensures Undelimited(DelimiterPass(t, d, open, close), d, open, close) == t
    decreases |t|
  {
    DelimiterPassStep(t, d, open, close);
    ReadingIsText(t, d);
    ReadingWithout(ReadingOf(t, d), t, d, {open, close});
    match ReadingOf(t, d)
    case Whole => UndelimitedPlain(t, d, open, close);
    case Bare(before, rest) =>
      DelimiterRoundTrip(rest, d, open, close);
      UndelimitedConcat(before + Chars(d), DelimiterPass(rest, d, open, close), d, open, close);
      UndelimitedPlain(before + Chars(d), d, open, close);
    case Enclosed(before, inside, rest) =>
      DelimiterRoundTrip(rest, d, open, close);
      UndelimitedSpan(before, inside, d, open, close);
      UndelimitedConcat(
        before + ([Tg(open)] + inside + [Tg(close)]), DelimiterPass(rest, d, open, close), d, open, close);
  }

  // ---------- Links ----------

  /** The text with every anchor written as a link again. */
  function Unlinked(u: seq<Symbol>): seq<Symbol>
    decreases |u|
  {
    match SplitOnce(u, Tg(LinkOpen))
    case None => u
    case Some(cut) =>
      match AnchorAt(cut.after)
      case None => u
      case Some(link) => cut.before + LinkText(link) + Unlinked(link.rest)
  }

  /** The anchor whose opening tag stands right before u. */
  function AnchorAt(u: seq<Symbol>): (r: Option<Link<Symbol>>)
    ensures r.Some? ==> |r.value.rest| < |u|
  {
    match SplitOnce(u, Tg(LinkMiddle))
    case None => None
    case Some(url) =>
      match SplitOnce(url.after, Tg(LinkClose))
      case None => None
      case Some(caption) => Some(Link(caption.before, url.before, caption.after))
  }

  const LINK_TAGS: set<Tag> := {LinkOpen, LinkMiddle, LinkClose}

  lemma {:induction false} SplitAt<T>(before: seq<T>, c: T, after: seq<T>)
    requires c !in before
    ensures SplitOnce(before + ([c] + after), c) == Some(Halves(before, after))
  {
    SplitPast(before, [c] + after, c);
    assert ([c] + after)[1..] == after;
    assert before + [] == before;
  }

  lemma {:induction false} AnchorReads(l: Link<Symbol>)
    requires Without(l.url, LINK_TAGS) && Without(l.caption, LINK_TAGS)
    ensures AnchorAt(l.url + ([Tg(LinkMiddle)] + (l.caption + ([Tg(LinkClose)] + l.rest)))) == Some(l)
  {
    SplitAt(l.url, Tg(LinkMiddle), l.caption + ([Tg(LinkClose)] + l.rest));
    SplitAt(l.caption, Tg(LinkClose), l.rest);
  }

  lemma {:induction false} UnlinkedAnchor(before: seq<Symbol>, l: Link<Symbol>, rest: seq<Symbol>)
    requires Without(before, LINK_TAGS) && Without(l.url, LINK_TAGS) && Without(l.caption, LINK_TAGS)
    ensures Unlinked(before + Anchor(LINK_SYMBOLS, l.url, l.caption) + rest) == before + LinkText(l) + Unlinked(rest)
  {
    var inner := l.url + ([Tg(LinkMiddle)] + (l.caption + ([Tg(LinkClose)] + rest)));
    assert before + Anchor(LINK_SYMBOLS, l.url, l.caption) + rest == before + ([Tg(LinkOpen)] + inner);
    SplitAt(before, Tg(LinkOpen), inner);
    AnchorReads(Link(l.caption, l.url, rest));
  }

  lemma {:induction false} Regroup<T>(a: seq<T>, b: seq<T>, c: seq<T>, d: seq<T>)
    ensures (a + b) + c + d == a + (b + c + d)
  {
  }

  lemma {:induction false} UnlinkedPast(a: seq<Symbol>, u: seq<Symbol>)
    requires Without(a, LINK_TAGS)
    ensures Unlinked(a + u) == a + Unlinked(u)
  {
    SplitPast(a, u, Tg(LinkOpen));
    var cut := SplitOnce(u, Tg(LinkOpen));
    if cut.Some? {
      var link := AnchorAt(cut.value.after);
      if link.Some? {
        UnlinkedAt(u, cut.value, link.value);
        UnlinkedAt(a + u, Halves(a + cut.value.before, cut.value.after), link.value);
        Regroup(a, cut.value.before, LinkText(link.value), Unlinked(link.value.rest));
      }
    }
  }

  lemma {:induction false} UnlinkedAt(u: seq<Symbol>, cut: Halves<Symbol>, link: Link<Symbol>)
    requires SplitOnce(u, Tg(LinkOpen)) == Some(cut) && AnchorAt(cut.after) == Some(link)
    ensures Unlinked(u) == cut.before + LinkText(link) + Unlinked(link.rest)
  {
  }

  lemma {:induction false} LinkPartsWithout(before: seq<Symbol>, l: Link<Symbol>)
    requires Without(before + LinkText(l) + l.rest, LINK_TAGS)
    ensures Without(before, LINK_TAGS) && Without(l.caption, LINK_TAGS) && Without(l.url, LINK_TAGS)
    ensures Without(l.rest, LINK_TAGS)
  {
    WithoutParts(before + LinkText(l), l.rest, LINK_TAGS);
    WithoutParts(before, LinkText(l), LINK_TAGS);
    var front := [Ch('[')] + l.caption + [Ch(']'), Ch('(')];
    WithoutParts(front + l.url, [Ch(')')], LINK_TAGS);
    WithoutParts(front, l.url, LINK_TAGS);
    WithoutParts([Ch('[')] + l.caption, [Ch(']'), Ch('(')], LINK_TAGS);
    WithoutParts([Ch('[')], l.caption, LINK_TAGS);
  }

  /** Reading the anchors back as links gives the text: addresses and captions are where they belong
      and nothing else changes. */
  lemma {:induction false} LinkRoundTrip(t: seq<Symbol>)
    requires Without(t, LINK_TAGS)
    ensures Unlinked(LinkPass(t)) == t
    decreases |t|
  {
    LinkPassStep(t);
    LinkReadingIsText(t);
    match LinkReadingOf(t)
    case Plain =>
      assert SplitOnce(t, Tg(LinkOpen)).Some? ==> Tg(LinkOpen) in t;
    case Bracket(before, rest) =>
      WithoutParts(before + [Ch('[')], rest, LINK_TAGS);
      LinkRoundTrip(rest);
      UnlinkedPast(before + [Ch('[')], LinkPass(rest));
    case Linked(before, l) =>
      LinkPartsWithout(before, l);
      LinkRoundTrip(l.rest);
      UnlinkedAnchor(before, l, LinkPass(l.rest));
  }

  // ---------- On characters ----------

  lemma {:induction false} CharsHaveNoTag(s: string, tags: set<Tag>)
    ensures Without(Chars(s), tags)
  {
  }

  /** The link pass over a text is the writing of symbols that read back as the text. */
  lemma {:induction false} LinksReadBack(s: string) returns (u: seq<Symbol>)
    ensures Links(s, LINKS, UrlOk) == Render(u) && Unlinked(u) == Chars(s)
  {
    u := LinkPass(Chars(s));
    CharsHaveNoTag(s, LINK_TAGS);
    LinkRoundTrip(Chars(s));
    LinksRender(Chars(s));
    RenderChars(s);
  }

  /** So is each delimiter pass. */
  lemma {:induction false} DelimitersReadBack(s: string, d: string, open: Tag, close: Tag) returns (u: seq<Symbol>)
    requires IsDelimiter(d)
    ensures Delimited(s, d, '\n', TagText(open), TagText(close)) == Render(u)
    ensures Undelimited(u, d, open, close) == Chars(s)
  {
    u := DelimiterPass(Chars(s), d, open, close);
    CharsHaveNoTag(s, {open, close});
    DelimiterRoundTrip(Chars(s), d, open, close);
    DelimiterPassRender(Chars(s), d, open, close);
    RenderChars(s);
  }
}
