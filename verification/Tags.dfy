/** On every text, the converted HTML contains no `<` but those of the tags the passes insert, and
    every kind of tag is opened as often as it is closed. */
module Tags {
  import opened Prelude
  import opened Text
  import opened Markdown
  import opened Markup

  datatype Kind = BoldTags | CodeTags | PreTags | LinkTags

  function Opening(kind: Kind): Tag {
    match kind
    case BoldTags => BoldOpen
    case CodeTags => CodeOpen
    case PreTags => PreOpen
    case LinkTags => LinkOpen
  }

  function Closing(kind: Kind): Tag {
    match kind
    case BoldTags => BoldClose
    case CodeTags => CodeClose
    case PreTags => PreClose
    case LinkTags => LinkClose
  }

  /** How many more tags of a kind are opened than closed. */
  ghost function Excess(t: seq<Symbol>, kind: Kind): int {
    multiset(t)[Tg(Opening(kind))] as int - multiset(t)[Tg(Closing(kind))] as int
  }

  /** Tags, and characters that open none. */
  ghost predicate Safe(t: seq<Symbol>) {
    forall i :: 0 <= i < |t| ==> t[i].Tg? || (t[i].Ch? && t[i].c != '<')
  }

  ghost function Copies(t: seq<Symbol>, k: nat): nat {
    multiset(t)[Ph(k)]
  }

  /** Replacing t by u unbalances no tag, brings in no bare `<`, and neither loses nor copies a
      placeholder. */
  ghost predicate Kept(t: seq<Symbol>, u: seq<Symbol>) {
    && (Safe(t) ==> Safe(u))
    && (forall kind :: Excess(u, kind) == Excess(t, kind))
    && (forall k :: Copies(u, k) == Copies(t, k))
  }

  lemma {:induction false} ExcessAdds(a: seq<Symbol>, b: seq<Symbol>, kind: Kind)
    ensures Excess(a + b, kind) == Excess(a, kind) + Excess(b, kind)
  {
  }

  lemma {:induction false} CopiesAdd(a: seq<Symbol>, b: seq<Symbol>, k: nat)
    ensures Copies(a + b, k) == Copies(a, k) + Copies(b, k)
  {
  }

  lemma {:induction false} SafeConcat(a: seq<Symbol>, b: seq<Symbol>)
    ensures Safe(a + b) <==> Safe(a) && Safe(b)
  {
    if Safe(a + b) {
      assert forall i :: 0 <= i < |a| ==> (a + b)[i] == a[i];
      assert forall i :: 0 <= i < |b| ==> (a + b)[|a| + i] == b[i];
    }
  }

  lemma {:induction false} KeptConcat(a: seq<Symbol>, a': seq<Symbol>, b: seq<Symbol>, b': seq<Symbol>)
    requires Kept(a, a') && Kept(b, b')
    ensures Kept(a + b, a' + b')
  {
    SafeConcat(a, b);
    SafeConcat(a', b');
    forall kind
      ensures Excess(a' + b', kind) == Excess(a + b, kind)
    {
      ExcessAdds(a, b, kind);
      ExcessAdds(a', b', kind);
    }
    forall k
      ensures Copies(a' + b', k) == Copies(a + b, k)
    {
      CopiesAdd(a, b, k);
      CopiesAdd(a', b', k);
    }
  }

  lemma {:induction false} CharsHaveNoTags(t: seq<Symbol>, kind: Kind)
    requires AllChars(t)
    ensures Excess(t, kind) == 0
  {
  }

  lemma {:induction false} CharsHaveNoPlaceholder(t: seq<Symbol>, k: nat)
    requires AllChars(t)
    ensures Copies(t, k) == 0
  {
  }

  /** Characters may be dropped at either end. */
  lemma {:induction false} DropChars(a: seq<Symbol>, t: seq<Symbol>, b: seq<Symbol>)
    requires AllChars(a) && AllChars(b)
    ensures Kept(a + t + b, t)
  {
    SafeConcat(a + t, b);
    SafeConcat(a, t);
    forall kind
      ensures Excess(t, kind) == Excess(a + t + b, kind)
    {
      CharsHaveNoTags(a, kind);
      CharsHaveNoTags(b, kind);
      ExcessAdds(a + t, b, kind);
      ExcessAdds(a, t, kind);
    }
    forall k
      ensures Copies(t, k) == Copies(a + t + b, k)
    {
      CharsHaveNoPlaceholder(a, k);
      CharsHaveNoPlaceholder(b, k);
      CopiesAdd(a + t, b, k);
      CopiesAdd(a, t, k);
    }
  }

  /** A pair of tags may be put around a text. */
  lemma {:induction false} Enclose(t: seq<Symbol>, kind: Kind)
    ensures Kept(t, [Tg(Opening(kind))] + t + [Tg(Closing(kind))])
  {
    var o, c := [Tg(Opening(kind))], [Tg(Closing(kind))];
    SafeConcat(o + t, c);
    SafeConcat(o, t);
    forall other
      ensures Excess(o + t + c, other) == Excess(t, other)
    {
      ExcessAdds(o + t, c, other);
      ExcessAdds(o, t, other);
    }
    forall k
      ensures Copies(o + t + c, k) == Copies(t, k)
    {
      CopiesAdd(o + t, c, k);
      CopiesAdd(o, t, k);
    }
  }

  // ---------- The delimiter passes ----------

  lemma {:induction false} EnclosedKept(before: seq<Symbol>, d: string, inside: seq<Symbol>, kind: Kind)
    ensures Kept(before + (Chars(d) + inside + Chars(d)),
                 before + ([Tg(Opening(kind))] + inside + [Tg(Closing(kind))]))
  {
    DropChars(Chars(d), inside, Chars(d));
    Enclose(inside, kind);
    KeptConcat(before, before, Chars(d) + inside + Chars(d), [Tg(Opening(kind))] + inside + [Tg(Closing(kind))]);
  }

  lemma {:induction false} DelimitedKept(t: seq<Symbol>, d: string, kind: Kind)
    requires d != ""
    ensures Kept(t, DelimiterPass(t, d, Opening(kind), Closing(kind)))
    decreases |t|
  {
    var o, c := [Tg(Opening(kind))], [Tg(Closing(kind))];
    RoundReads(t, d, o, c);
    ReadingIsText(t, d);
    match ReadingOf(t, d)
    case Whole =>
    case Bare(before, rest) =>
      DelimitedKept(rest, d, kind);
      KeptConcat(before + Chars(d), before + Chars(d), rest, Delimited(rest, Chars(d), Ch('\n'), o, c));
    case Enclosed(before, inside, rest) =>
      DelimitedKept(rest, d, kind);
      EnclosedKept(before, d, inside, kind);
      KeptConcat(before + (Chars(d) + inside + Chars(d)), before + (o + inside + c),
                 rest, Delimited(rest, Chars(d), Ch('\n'), o, c));
  }

  // ---------- The link pass ----------

  lemma {:induction false} AnchorSafe(l: Link<Symbol>)
    ensures Safe(LinkText(l)) ==> Safe(Anchor(LINK_SYMBOLS, l.url, l.caption))
  {
    var o, m, c := [Tg(LinkOpen)], [Tg(LinkMiddle)], [Tg(LinkClose)];
    var bracket, turn, end := [Ch('[')], [Ch(']'), Ch('(')], [Ch(')')];
    SafeConcat(bracket + l.caption + turn + l.url, end);
    SafeConcat(bracket + l.caption + turn, l.url);
    SafeConcat(bracket + l.caption, turn);
    SafeConcat(bracket, l.caption);
    SafeConcat(o + l.url + m + l.caption, c);
    SafeConcat(o + l.url + m, l.caption);
    SafeConcat(o + l.url, m);
    SafeConcat(o, l.url);
  }

  lemma {:induction false} AnchorKept(l: Link<Symbol>)
    ensures Kept(LinkText(l), Anchor(LINK_SYMBOLS, l.url, l.caption))
  {
    AnchorSafe(l);
    forall kind
      ensures Excess(Anchor(LINK_SYMBOLS, l.url, l.caption), kind) == Excess(LinkText(l), kind)
    {
      AnchorExcess(l, kind);
      LinkTextExcess(l, kind);
    }
    forall k
      ensures Copies(Anchor(LINK_SYMBOLS, l.url, l.caption), k) == Copies(LinkText(l), k)
    {
      AnchorCopies(l, k);
    }
  }

  lemma {:induction false} AnchorCopies(l: Link<Symbol>, k: nat)
    ensures Copies(Anchor(LINK_SYMBOLS, l.url, l.caption), k) == Copies(l.url, k) + Copies(l.caption, k)
    ensures Copies(LinkText(l), k) == Copies(l.url, k) + Copies(l.caption, k)
  {
  }

  lemma {:induction false} AnchorExcess(l: Link<Symbol>, kind: Kind)
    ensures Excess(Anchor(LINK_SYMBOLS, l.url, l.caption), kind) == Excess(l.url, kind) + Excess(l.caption, kind)
  {
  }

  lemma {:induction false} LinkTextExcess(l: Link<Symbol>, kind: Kind)
    ensures Excess(LinkText(l), kind) == Excess(l.url, kind) + Excess(l.caption, kind)
  {
  }

  lemma {:induction false} LinksKept(t: seq<Symbol>)
    ensures Kept(t, LinkPass(t))
    decreases |t|
  {
    LinkReads(t);
    LinkReadingIsText(t);
    match LinkReadingOf(t)
    case Plain =>
    case Bracket(before, rest) =>
      LinksKept(rest);
      KeptConcat(before + [Ch('[')], before + [Ch('[')], rest, LinkPass(rest));
    case Linked(before, link) =>
      LinksKept(link.rest);
      AnchorKept(link);
      var anchor := Anchor(LINK_SYMBOLS, link.url, link.caption);
      KeptConcat(before, before, LinkText(link), anchor);
      KeptConcat(before + LinkText(link), before + anchor, link.rest, LinkPass(link.rest));
  }

  // ---------- The heading pass ----------

  lemma {:induction false} KeptTrans(a: seq<Symbol>, b: seq<Symbol>, c: seq<Symbol>)
    requires Kept(a, b) && Kept(b, c)
    ensures Kept(a, c)
  {
  }

  lemma {:induction false} HeadingLineKept(t: seq<Symbol>)
    ensures Kept(t, HeadingLine(t, SymbolBlank, SymbolHash, [Tg(BoldOpen)], [Tg(BoldClose)]))
  {
    TitleStrips(t);
    var title := Heading(t, SymbolBlank, SymbolHash);
    if title.Some? {
      var trimmed := Trim(title.value, SymbolBlank);
      var a, b :| AllChars(a) && AllChars(b) && t == a + trimmed + b;
      DropChars(a, trimmed, b);
      Enclose(trimmed, BoldTags);
    }
  }

  lemma {:induction false} HeadingsKept(t: seq<Symbol>)
    ensures Kept(t, HeadingPass(t))
    decreases |t|
  {
    match SplitOnce(t, Ch('\n'))
    case None => HeadingLineKept(t);
    case Some(cut) =>
      HeadingLineKept(cut.before);
      HeadingsKept(cut.after);
      var line := HeadingLine(cut.before, SymbolBlank, SymbolHash, [Tg(BoldOpen)], [Tg(BoldClose)]);
      KeptConcat(cut.before, line, [Ch('\n')], [Ch('\n')]);
      KeptConcat(cut.before + [Ch('\n')], line + [Ch('\n')], cut.after, HeadingPass(cut.after));
  }

  /** The passes keep tags balanced and let no bare `<` through. */
  lemma {:induction false} SpansKept(t: seq<Symbol>)
    ensures Kept(t, SymbolSpans(t))
  {
    HeadingsKept(t);
    var linked := LinkPass(HeadingPass(t));
    LinksKept(HeadingPass(t));
    var starred := DelimiterPass(linked, "**", BoldOpen, BoldClose);
    DelimitedKept(linked, "**", BoldTags);
    DelimitedKept(starred, "__", BoldTags);
    DelimitedKept(BoldPass(linked), "`", CodeTags);
  }

  // ---------- Putting the blocks back ----------

  lemma {:induction false} TagsHideNoPlaceholder(tag: Tag, k: nat)
    ensures Opaque(TagText(tag), Placeholder(k))
  {
  }

  lemma {:induction false} ReplaceAt<T>(s: seq<T>, from: seq<T>, to: seq<T>, i: nat, rest: seq<T>)
    requires from != [] && Find(s, from) == Some(i) && rest == s[i + |from|..]
    ensures ReplaceAll(s, from, to) == s[..i] + to + ReplaceAll(rest, from, to)
  {
  }

  lemma {:induction false} ReplaceFirstRender(t: seq<Symbol>, d: string, to: seq<Symbol>, i: nat, rest: seq<Symbol>)
    requires d != "" && Find(t, Chars(d)) == Some(i) && Find(Render(t), d) == Some(|Render(t[..i])|)
    requires rest == t[i + |d|..]
    requires ReplaceAll(Render(rest), d, Render(to)) == Render(ReplaceAll(rest, Chars(d), to))
    ensures ReplaceAll(Render(t), d, Render(to)) == Render(ReplaceAll(t, Chars(d), to))
  {
    FoundSymbols(t, d);
    CutRender(t, i, d);
    ReplaceAt(t, Chars(d), to, i, rest);
    ReplaceAt(Render(t), d, Render(to), |Render(t[..i])|, Render(rest));
    RenderThree(t[..i], to, ReplaceAll(rest, Chars(d), to));
  }

  lemma {:induction false} ReplaceRender(t: seq<Symbol>, d: string, to: seq<Symbol>)
    requires Atomic(t, d)
    ensures ReplaceAll(Render(t), d, Render(to)) == Render(ReplaceAll(t, Chars(d), to))
    decreases |t|
  {
    FindRender(t, d);
    match Find(t, Chars(d))
    case None =>
    case Some(i) =>
      var rest := t[i + |d|..];
      ReplaceRender(rest, d, to);
      ReplaceFirstRender(t, d, to, i, rest);
  }

  /** Text may be replaced by anything safe and balanced. */
  lemma {:induction false} ReplaceKept(t: seq<Symbol>, d: string, to: seq<Symbol>)
    requires d != "" && Kept([], to)
    ensures Kept(t, ReplaceAll(t, Chars(d), to))
    decreases |t|
  {
    match Find(t, Chars(d))
    case None =>
    case Some(i) =>
      FoundSymbols(t, d);
      var rest := t[i + |d|..];
      ReplaceKept(rest, d, to);
      DropChars(Chars(d), [], []);
      KeptTrans(Chars(d) + [] + [], [], to);
      assert Chars(d) + [] + [] == Chars(d);
      KeptConcat(t[..i], t[..i], Chars(d), to);
      KeptConcat(t[..i] + Chars(d), t[..i] + to, rest, ReplaceAll(rest, Chars(d), to));
      assert t == t[..i] + Chars(d) + rest;
  }

  lemma {:induction false} EscapedHasNoLess(s: string)
    ensures '<' !in EscapeHtml(s)
  {
    if s != "" {
      EscapedHasNoLess(s[1..]);
    }
  }

  function BlockSymbols(body: string): seq<Symbol> {
    [Tg(PreOpen), Tg(CodeOpen)] + Chars(EscapeHtml(Trim(body, IsNewline))) + [Tg(CodeClose), Tg(PreClose)]
  }

  lemma {:induction false} BlockRender(body: string)
    ensures Render(BlockSymbols(body)) == CodeBlock(body)
  {
    var inside := EscapeHtml(Trim(body, IsNewline));
    RenderThree([Tg(PreOpen), Tg(CodeOpen)], Chars(inside), [Tg(CodeClose), Tg(PreClose)]);
    RenderChars(inside);
    RenderPair(PreOpen, CodeOpen);
    RenderPair(CodeClose, PreClose);
  }

  lemma {:induction false} RenderPair(a: Tag, b: Tag)
    ensures Render([Tg(a), Tg(b)]) == TagText(a) + TagText(b)
  {
    RenderConcat([Tg(a)], [Tg(b)]);
    RenderOne(Tg(a));
    RenderOne(Tg(b));
    assert [Tg(a)] + [Tg(b)] == [Tg(a), Tg(b)];
  }

  lemma {:induction false} BlockKept(body: string)
    ensures Kept([], BlockSymbols(body))
  {
    var inside := EscapeHtml(Trim(body, IsNewline));
    EscapedHasNoLess(Trim(body, IsNewline));
    DropChars(Chars(inside), [], []);
    assert Chars(inside) + [] + [] == Chars(inside);
    Enclose(Chars(inside), CodeTags);
    var code := [Tg(CodeOpen)] + Chars(inside) + [Tg(CodeClose)];
    Enclose(code, PreTags);
    assert [Tg(PreOpen)] + code + [Tg(PreClose)] == BlockSymbols(body);
  }

  function BlocksOf(doc: Doc): seq<seq<Symbol>> {
    match doc
    case End(_) => []
    case Block(_, body, rest) => [BlockSymbols(body)] + BlocksOf(rest)
  }

  lemma {:induction false} BlocksRender(doc: Doc)
    ensures |BlocksOf(doc)| == |CodeBlocks(doc)|
    ensures forall k :: 0 <= k < |BlocksOf(doc)| ==>
      Render(BlocksOf(doc)[k]) == CodeBlocks(doc)[k] && Kept([], BlocksOf(doc)[k])
  {
    if doc.Block? {
      BlockRender(doc.body);
      BlockKept(doc.body);
      BlocksRender(doc.rest);
    }
  }

  lemma {:induction false} SafeIsAtomic(t: seq<Symbol>, k: nat)
    requires Safe(t)
    ensures Atomic(t, Placeholder(k))
  {
    forall i | 0 <= i < |t| && !t[i].Ch?
      ensures Opaque(Written(t[i]), Placeholder(k))
    {
      TagsHideNoPlaceholder(t[i].tag, k);
    }
  }

  lemma {:induction false} RestoreKept(t: seq<Symbol>, blocks: seq<string>, sources: seq<seq<Symbol>>, k: nat)
      returns (u: seq<Symbol>)
    requires k <= |blocks| == |sources| && Safe(t)
    requires forall i :: 0 <= i < |blocks| ==> Render(sources[i]) == blocks[i] && Kept([], sources[i])
    ensures RestoreBlocks(Render(t), blocks, k) == Render(u) && Kept(t, u)
    decreases |blocks| - k
  {
    u := t;
    if k < |blocks| {
      var d := Placeholder(k);
      SafeIsAtomic(t, k);
      ReplaceRender(t, d, sources[k]);
      ReplaceKept(t, d, sources[k]);
      u := RestoreKept(ReplaceAll(t, Chars(d), sources[k]), blocks, sources, k + 1);
      KeptTrans(t, ReplaceAll(t, Chars(d), sources[k]), u);
    }
  }

  /** The HTML as tags and harmless characters. */
  lemma {:induction false} HtmlSymbols(text: string) returns (u: seq<Symbol>)
    ensures MarkdownToHtml(text) == Render(u) && Safe(u)
    ensures forall kind :: Excess(u, kind) == 0
  {
    var doc := Fences(text);
    var escaped := EscapeHtml(Outline(doc, 0));
    var t := Chars(escaped);
    EscapedHasNoLess(Outline(doc, 0));
    RenderChars(escaped);
    SpansRender(t);
    SpansKept(t);
    BlocksRender(doc);
    u := RestoreKept(SymbolSpans(t), CodeBlocks(doc), BlocksOf(doc), 0);
    forall kind
      ensures Excess(u, kind) == 0
    {
      CharsHaveNoTags(t, kind);
    }
  }

  // ---------- Reading the HTML ----------

  /** In how many places d occurs in s. */
  ghost function Occurrences(s: string, d: string): nat {
    if s == "" then 0 else (if d <= s then 1 else 0) + Occurrences(s[1..], d)
  }

  lemma {:induction false} OccurrencesPast(w: string, rest: string, d: string)
    requires d != "" && d[0] !in w
    ensures Occurrences(w + rest, d) == Occurrences(rest, d)
  {
    if w == "" {
      assert w + rest == rest;
    } else {
      assert (w + rest)[0] == w[0] && (w + rest)[1..] == w[1..] + rest;
      OccurrencesPast(w[1..], rest, d);
    }
  }

  lemma {:induction false} TagStartsOnlyItself(a: Tag, b: Tag, rest: string)
    requires a != LinkMiddle
    ensures TagText(a) <= TagText(b) + rest <==> a == b
  {
    var w := TagText(b) + rest;
    if TagText(a) <= w {
      assert w[0] == TagText(b)[0] && w[1] == TagText(b)[1];
      assert w[0] == TagText(a)[0] && w[1] == TagText(a)[1];
      if |TagText(b)| > 2 {
        assert w[2] == TagText(b)[2] && w[2] == TagText(a)[2];
      }
    }
  }

  lemma {:induction false} TagCountedOnce(a: Tag, b: Tag, rest: string)
    requires a != LinkMiddle
    ensures Occurrences(TagText(b) + rest, TagText(a)) == (if a == b then 1 else 0) + Occurrences(rest, TagText(a))
  {
    var w := TagText(b);
    assert (w + rest)[1..] == w[1..] + rest;
    TagStartsOnlyItself(a, b, rest);
    forall p | 0 <= p < |w[1..]|
      ensures w[1..][p] != TagText(a)[0]
    {
      TagPlain(b, p + 1);
    }
    OccurrencesPast(w[1..], rest, TagText(a));
  }

  /** The text of a tag occurs in the rendering exactly where the tag does. */
  lemma {:induction false} OccurrencesAreTags(u: seq<Symbol>, tag: Tag)
    requires Safe(u) && tag != LinkMiddle
    ensures Occurrences(Render(u), TagText(tag)) == multiset(u)[Tg(tag)]
  {
    if u != [] {
      assert u == [u[0]] + u[1..];
      OccurrencesAreTags(u[1..], tag);
      match u[0]
      case Ch(c) => OccurrencesPast([c], Render(u[1..]), TagText(tag));
      case Tg(b) => TagCountedOnce(tag, b, Render(u[1..]));
    }
  }

  /** On every text each kind of tag is opened as often as it is closed. */
  lemma {:induction false} TagsBalance(text: string, kind: Kind)
    ensures Occurrences(MarkdownToHtml(text), TagText(Opening(kind)))
         == Occurrences(MarkdownToHtml(text), TagText(Closing(kind)))
  {
    var u := HtmlSymbols(text);
    OccurrencesAreTags(u, Opening(kind));
    OccurrencesAreTags(u, Closing(kind));
    assert Excess(u, kind) == 0;
  }

  lemma {:induction false} OccursFurther(w: string, rest: string, d: string, i: nat)
    requires OccursAt(rest, d, i)
    ensures OccursAt(w + rest, d, |w| + i)
  {
  }

  lemma {:induction false} OccursHere(w: string, rest: string)
    ensures OccursAt(w + rest, w, 0)
  {
  }

  lemma {:induction false} SymbolOpensTag(x: Symbol, i: nat, rest: string) returns (tag: Tag)
    requires Safe([x]) && i < |Written(x)| && Written(x)[i] == '<'
    ensures OccursAt(Written(x) + rest, TagText(tag), i) && tag != LinkMiddle
  {
    assert [x][0] == x;
    tag := x.tag;
    TagPlain(tag, i);
    OccursHere(Written(x), rest);
  }

  lemma {:induction false} LessOpensTag(u: seq<Symbol>, i: nat) returns (tag: Tag)
    requires Safe(u) && i < |Render(u)| && Render(u)[i] == '<'
    ensures OccursAt(Render(u), TagText(tag), i) && tag != LinkMiddle
  {
    var w, rest := Written(u[0]), Render(u[1..]);
    assert Render(u) == w + rest;
    if i < |w| {
      tag := SymbolOpensTag(u[0], i, rest);
    } else {
      tag := LessOpensTag(u[1..], i - |w|);
      OccursFurther(w, rest, TagText(tag), i - |w|);
    }
  }

  /** On every text each `<` of the HTML begins one of the inserted tags. */
  lemma {:induction false} EveryLessIsInserted(text: string, i: nat)
    requires i < |MarkdownToHtml(text)| && MarkdownToHtml(text)[i] == '<'
    ensures exists tag :: tag != LinkMiddle && OccursAt(MarkdownToHtml(text), TagText(tag), i)
  {
    var u := HtmlSymbols(text);
    var tag := LessOpensTag(u, i);
  }
}
