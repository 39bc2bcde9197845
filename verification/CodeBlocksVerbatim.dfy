/** On every text without the placeholder marker, each captured block appears in the HTML verbatim,
    exactly once: the passes move whole placeholders, and putting a block back touches nothing else. */
module CodeBlocksVerbatim {
  import opened Prelude
  import opened Text
  import opened Markdown
  import opened Markup
  import opened Tags
  import opened Regexes

  const MARK := "TG_CODEBLOCK_"

  ghost predicate NoMark(s: string) {
    forall i :: !OccursAt(s, MARK, i)
  }

  /** No characters of t in a row spell the marker. */
  ghost predicate Clean(t: seq<Symbol>) {
    forall i :: !OccursAt(t, Chars(MARK), i)
  }

  // ---------- Clean texts ----------

  lemma {:induction false} OccursIn<T>(a: seq<T>, s: seq<T>, b: seq<T>, d: seq<T>, i: int)
    requires OccursAt(s, d, i)
    ensures OccursAt(a + s + b, d, |a| + i)
  {
  }

  lemma {:induction false} CleanPart(a: seq<Symbol>, t: seq<Symbol>, b: seq<Symbol>)
    requires Clean(a + t + b)
    ensures Clean(t)
  {
    forall i
      ensures !OccursAt(t, Chars(MARK), i)
    {
      if OccursAt(t, Chars(MARK), i) {
        OccursIn(a, t, b, Chars(MARK), i);
      }
    }
  }

  lemma {:induction false} CleanHalves(a: seq<Symbol>, b: seq<Symbol>)
    requires Clean(a + b)
    ensures Clean(a) && Clean(b)
  {
    assert [] + a + b == a + b && a + b + [] == a + b;
    CleanPart([], a, b);
    CleanPart(a, b, []);
  }

  /** An occurrence of d lies on one side of a symbol that is not in d. */
  lemma {:induction false} OccursBeside<T>(a: seq<T>, x: T, b: seq<T>, d: seq<T>, i: int)
    requires OccursAt(a + [x] + b, d, i) && x !in d
    ensures OccursAt(a, d, i) || OccursAt(b, d, i - |a| - 1)
  {
    var s := a + [x] + b;
    assert s[|a|] == x;
    forall k | i <= k < i + |d|
      ensures s[k] in d
    {
      assert s[i..i + |d|][k - i] == s[k];
    }
    if i + |d| <= |a| {
      assert s[i..i + |d|] == a[i..i + |d|];
    } else {
      assert s[i..i + |d|] == b[i - |a| - 1..i - |a| - 1 + |d|];
    }
  }

  lemma {:induction false} CleanBeside(a: seq<Symbol>, x: Symbol, b: seq<Symbol>)
    requires Clean(a) && Clean(b) && !x.Ch?
    ensures Clean(a + [x] + b)
  {
    forall i
      ensures !OccursAt(a + [x] + b, Chars(MARK), i)
    {
      if OccursAt(a + [x] + b, Chars(MARK), i) {
        OccursBeside(a, x, b, Chars(MARK), i);
      }
    }
  }

  lemma {:induction false} CleanEnclosed(a: seq<Symbol>, x: Symbol, t: seq<Symbol>, y: Symbol, b: seq<Symbol>)
    requires Clean(a) && Clean(t) && Clean(b) && !x.Ch? && !y.Ch?
    ensures Clean(a + ([x] + t + [y]) + b)
  {
    CleanBeside(a, x, t);
    CleanBeside(a + [x] + t, y, b);
    assert a + [x] + t + [y] + b == a + ([x] + t + [y]) + b;
  }

  // ---------- The passes keep a text clean ----------

  lemma {:induction false} DelimitedClean(x: seq<Symbol>, t: seq<Symbol>, d: string, open: Tag, close: Tag)
    requires d != "" && Clean(x + t)
    ensures Clean(x + DelimiterPass(t, d, open, close))
    decreases |t|
  {
    DelimiterPassStep(t, d, open, close);
    ReadingIsText(t, d);
    match ReadingOf(t, d)
    case Whole =>
    case Bare(before, rest) =>
      Rejoin(x, before + Chars(d), rest);
      DelimitedClean(x + (before + Chars(d)), rest, d, open, close);
      Rejoin(x, before + Chars(d), DelimiterPass(rest, d, open, close));
    case Enclosed(before, inside, rest) =>
      EnclosedParts(x, before, d, inside, rest);
      DelimitedCleanAlone(rest, d, open, close);
      EnclosedClean(x, before, inside, open, close, DelimiterPass(rest, d, open, close));
  }

  lemma {:induction false} DelimitedCleanAlone(t: seq<Symbol>, d: string, open: Tag, close: Tag)
    requires d != "" && Clean(t)
    ensures Clean(DelimiterPass(t, d, open, close))
    decreases |t| + 1
  {
    assert [] + t == t;
    DelimitedClean([], t, d, open, close);
    assert [] + DelimiterPass(t, d, open, close) == DelimiterPass(t, d, open, close);
  }

  lemma {:induction false} EnclosedClean(
      x: seq<Symbol>, before: seq<Symbol>, inside: seq<Symbol>, open: Tag, close: Tag, tail: seq<Symbol>)
    requires Clean(x + before) && Clean(inside) && Clean(tail)
    ensures Clean(x + (before + ([Tg(open)] + inside + [Tg(close)]) + tail))
  {
    CleanEnclosed(x + before, Tg(open), inside, Tg(close), tail);
    assert x + before + ([Tg(open)] + inside + [Tg(close)]) + tail
        == x + (before + ([Tg(open)] + inside + [Tg(close)]) + tail);
  }

  lemma {:induction false} EnclosedParts(
      x: seq<Symbol>, before: seq<Symbol>, d: string, inside: seq<Symbol>, rest: seq<Symbol>)
    requires Clean(x + (before + (Chars(d) + inside + Chars(d)) + rest))
    ensures Clean(x + before) && Clean(inside) && Clean(rest)
  {
    var c := Chars(d);
    var t := x + (before + (c + inside + c) + rest);
    assert t == (x + before) + ((c + inside + c) + rest);
    CleanHalves(x + before, (c + inside + c) + rest);
    CleanHalves(c + inside + c, rest);
    CleanPart(c, inside, c);
  }

  lemma {:induction false} LinkParts(x: seq<Symbol>, before: seq<Symbol>, l: Link<Symbol>)
    requires Clean(x + (before + LinkText(l) + l.rest))
    ensures Clean(x + before) && Clean(l.caption) && Clean(l.url) && Clean(l.rest)
  {
    assert x + (before + LinkText(l) + l.rest) == (x + before) + (LinkText(l) + l.rest);
    CleanHalves(x + before, LinkText(l) + l.rest);
    CleanHalves(LinkText(l), l.rest);
    CleanPart([Ch('[')] + l.caption + [Ch(']'), Ch('(')], l.url, [Ch(')')]);
    assert LinkText(l) == [Ch('[')] + l.caption + ([Ch(']'), Ch('(')] + l.url + [Ch(')')]);
    CleanPart([Ch('[')], l.caption, [Ch(']'), Ch('(')] + l.url + [Ch(')')]);
  }

  lemma {:induction false} AnchorClean(a: seq<Symbol>, l: Link<Symbol>, b: seq<Symbol>)
    requires Clean(a) && Clean(l.caption) && Clean(l.url) && Clean(b)
    ensures Clean(a + Anchor(LINK_SYMBOLS, l.url, l.caption) + b)
  {
    CleanBeside(a, Tg(LinkOpen), l.url);
    var left := a + [Tg(LinkOpen)] + l.url;
    CleanEnclosed(left, Tg(LinkMiddle), l.caption, Tg(LinkClose), b);
    assert left + ([Tg(LinkMiddle)] + l.caption + [Tg(LinkClose)]) + b
        == a + Anchor(LINK_SYMBOLS, l.url, l.caption) + b;
  }

  lemma {:induction false} LinksClean(x: seq<Symbol>, t: seq<Symbol>)
    requires Clean(x + t)
    ensures Clean(x + LinkPass(t))
    decreases |t|
  {
    LinkPassStep(t);
    LinkReadingIsText(t);
    match LinkReadingOf(t)
    case Plain =>
    case Bracket(before, rest) =>
      Rejoin(x, before + [Ch('[')], rest);
      LinksClean(x + (before + [Ch('[')]), rest);
      Rejoin(x, before + [Ch('[')], LinkPass(rest));
    case Linked(before, link) =>
      LinkParts(x, before, link);
      LinksCleanAlone(link.rest);
      LinkedClean(x, before, link, LinkPass(link.rest));
  }

  lemma {:induction false} LinkedClean(x: seq<Symbol>, before: seq<Symbol>, l: Link<Symbol>, tail: seq<Symbol>)
    requires Clean(x + before) && Clean(l.caption) && Clean(l.url) && Clean(tail)
    ensures Clean(x + (before + Anchor(LINK_SYMBOLS, l.url, l.caption) + tail))
  {
    var anchor := Anchor(LINK_SYMBOLS, l.url, l.caption);
    AnchorClean(x + before, l, tail);
    assert x + before + anchor + tail == x + (before + anchor + tail);
  }

  lemma {:induction false} LinksCleanAlone(t: seq<Symbol>)
    requires Clean(t)
    ensures Clean(LinkPass(t))
    decreases |t| + 1
  {
    assert [] + t == t;
    LinksClean([], t);
    assert [] + LinkPass(t) == LinkPass(t);
  }

  lemma {:induction false} HeadingLineClean(x: seq<Symbol>, line: seq<Symbol>, y: seq<Symbol>)
    requires Clean(x + line + y)
    ensures Clean(x + HeadingLine(line, SymbolBlank, SymbolHash, [Tg(BoldOpen)], [Tg(BoldClose)]) + y)
  {
    TitleStrips(line);
    var title := Heading(line, SymbolBlank, SymbolHash);
    if title.Some? {
      var trimmed := Trim(title.value, SymbolBlank);
      var a, b :| AllChars(a) && AllChars(b) && line == a + trimmed + b;
      CleanHalves(x + line, y);
      CleanHalves(x, line);
      CleanPart(a, trimmed, b);
      CleanEnclosed(x, Tg(BoldOpen), trimmed, Tg(BoldClose), y);
    }
  }

  lemma {:induction false} HeadingsClean(x: seq<Symbol>, t: seq<Symbol>)
    requires Clean(x + t)
    ensures Clean(x + HeadingPass(t))
    decreases |t|
  {
    match SplitOnce(t, Ch('\n'))
    case None =>
      assert x + t + [] == x + t;
      HeadingLineClean(x, t, []);
      assert x + HeadingPass(t) + [] == x + HeadingPass(t);
    case Some(cut) =>
      var line := HeadingLine(cut.before, SymbolBlank, SymbolHash, [Tg(BoldOpen)], [Tg(BoldClose)]);
      LineThenRestClean(x, cut.before, line, cut.after);
      HeadingsClean(x + (line + [Ch('\n')]), cut.after);
      Rejoin(x, line + [Ch('\n')], HeadingPass(cut.after));
  }

  lemma {:induction false} LineThenRestClean(x: seq<Symbol>, before: seq<Symbol>, line: seq<Symbol>, after: seq<Symbol>)
    requires line == HeadingLine(before, SymbolBlank, SymbolHash, [Tg(BoldOpen)], [Tg(BoldClose)])
    requires Clean(x + (before + [Ch('\n')] + after))
    ensures Clean(x + (line + [Ch('\n')]) + after)
  {
    assert x + (before + [Ch('\n')] + after) == x + before + ([Ch('\n')] + after);
    HeadingLineClean(x, before, [Ch('\n')] + after);
    assert x + line + ([Ch('\n')] + after) == x + (line + [Ch('\n')]) + after;
  }

  lemma {:induction false} SpansClean(t: seq<Symbol>)
    requires Clean(t)
    ensures Clean(SymbolSpans(t))
  {
    assert [] + t == t;
    HeadingsClean([], t);
    assert [] + HeadingPass(t) == HeadingPass(t);
    LinksCleanAlone(HeadingPass(t));
    var linked := LinkPass(HeadingPass(t));
    DelimitedCleanAlone(linked, "**", BoldOpen, BoldClose);
    DelimitedCleanAlone(DelimiterPass(linked, "**", BoldOpen, BoldClose), "__", BoldOpen, BoldClose);
    DelimitedCleanAlone(BoldPass(linked), "`", CodeOpen, CodeClose);
  }

  // ---------- Finding a placeholder ----------

  lemma {:induction false} CleanTail(t: seq<Symbol>)
    requires t != [] && Clean(t)
    ensures Clean(t[1..])
  {
    assert t == [t[0]] + t[1..];
    CleanHalves([t[0]], t[1..]);
  }

  lemma {:induction false} OtherSymbolsStartElsewhere(x: Symbol)
    requires !x.Ch?
    ensures Written(x)[0] !in MARK
  {
    match x
    case Ph(k) => PlaceholderShape(k); assert Placeholder(k)[..15][0] == '@';
    case Tg(tag) => TagPlain(tag, 0);
  }

  lemma {:induction false} MarkIsChars(t: seq<Symbol>)
    requires Clean(t)
    ensures !(MARK <= Render(t))
  {
    forall i, j | 0 <= i < |t| && !t[i].Ch? && 0 <= j < |MARK|
      ensures MARK[j] != Written(t[i])[0]
    {
      OtherSymbolsStartElsewhere(t[i]);
    }
    PrefixRender(t, MARK);
    assert Chars(MARK) <= t ==> OccursAt(t, Chars(MARK), 0);
  }

  lemma {:induction false} PlaceholderHead(k: nat)
    ensures var w := Placeholder(k);
      |w| > 3 && w[0] == '@' && w[1] == '@' && w[2] == 'T'
  {
  }

  lemma {:induction false} OneAtThenMark(t: seq<Symbol>)
    requires Clean(t)
    ensures !(['@'] + MARK <= Render(t))
  {
    var s := Render(t);
    if t != [] && ['@'] + MARK <= s {
      assert s[0] == '@' && s[1] == 'T' && MARK == (['@'] + MARK)[1..] <= s[1..];
      match t[0]
      case Ch(c) =>
        assert s[1..] == Render(t[1..]);
        CleanTail(t);
        MarkIsChars(t[1..]);
      case Ph(j) => PlaceholderHead(j);
      case Tg(tag) => TagPlain(tag, 0);
    }
  }

  lemma {:induction false} PlaceholderStarts(k: nat, s: string)
    requires Placeholder(k) <= s
    ensures |s| > 3 && s[0] == '@' && s[1] == '@' && s[2] == 'T'
    ensures ['@'] + MARK <= s[1..] && MARK <= s[2..]
  {
  }

  /** Text that is no placeholder does not begin like one. */
  lemma {:induction false} NoOtherPlaceholder(t: seq<Symbol>, k: nat)
    requires Clean(t) && t != [] && t[0].Ch?
    ensures !(Placeholder(k) <= Render(t))
  {
    if Placeholder(k) <= Render(t) {
      PlaceholderStarts(k, Render(t));
      assert Render(t)[1..] == Render(t[1..]);
      CleanTail(t);
      OneAtThenMark(t[1..]);
    }
  }

  lemma {:induction false} NumberChars(n: nat, rest: string, i: nat)
    requires i <= |Decimal(n)|
    ensures (Decimal(n) + ("@@" + rest))[i] == '@' <==> i == |Decimal(n)|
  {
  }

  lemma {:induction false} NumbersDiffer(j: nat, k: nat, rest: string)
    requires Decimal(k) + ("@@" + "") <= Decimal(j) + ("@@" + rest)
    ensures j == k
  {
    var m := Min(|Decimal(j)|, |Decimal(k)|);
    NumberChars(k, "", m);
    NumberChars(j, rest, m);
    assert (Decimal(k) + ("@@" + ""))[..m] == Decimal(k);
    assert (Decimal(j) + ("@@" + rest))[..m] == Decimal(j);
    DecimalInjective(j, k);
  }

  lemma {:induction false} PlaceholdersDiffer(j: nat, k: nat, rest: string)
    requires Placeholder(k) <= Placeholder(j) + rest
    ensures j == k
  {
    var s := Placeholder(j) + rest;
    assert Placeholder(k)[15..] == Decimal(k) + ("@@" + "");
    assert s[15..] == Decimal(j) + ("@@" + rest);
    NumbersDiffer(j, k, rest);
  }

  /** No placeholder begins inside another and runs past its end. */
  lemma {:induction false} NoOverlap(j: nat, k: nat, t: seq<Symbol>, p: nat)
    requires Clean(t) && 0 < p < |Placeholder(j)|
    ensures !(Placeholder(k) <= (Placeholder(j) + Render(t))[p..])
  {
    var w, rest := Placeholder(j), Render(t);
    var s := (w + rest)[p..];
    PlaceholderHead(j);
    assert s[0] == w[p] && (p == 1 ==> s[1] == w[2]);
    if Placeholder(k) <= s {
      PlaceholderStarts(k, s);
      PlaceholderPlain(j, p);
      if p == |w| - 2 {
        assert s[2..] == rest;
        MarkIsChars(t);
      } else {
        assert s[1..] == rest;
        OneAtThenMark(t);
      }
    }
  }

  lemma {:induction false} FindPast(w: string, rest: string, d: string)
    requires forall p :: 0 <= p < |w| ==> !(d <= (w + rest)[p..])
    ensures Find(w + rest, d) == Shift(Find(rest, d), |w|)
  {
    if w == "" {
      assert w + rest == rest;
    } else {
      assert (w + rest)[0..] == w + rest && (w + rest)[1..] == w[1..] + rest;
      FindStep(w + rest, d);
      forall p | 0 <= p < |w[1..]|
        ensures !(d <= (w[1..] + rest)[p..])
      {
        assert (w[1..] + rest)[p..] == (w + rest)[p + 1..];
      }
      FindPast(w[1..], rest, d);
    }
  }

  lemma {:induction false} PastPlaceholder(j: nat, k: nat, t: seq<Symbol>)
    requires Clean(t) && j != k
    ensures Find(Placeholder(j) + Render(t), Placeholder(k)) == Shift(Find(Render(t), Placeholder(k)), |Placeholder(j)|)
  {
    var s := Placeholder(j) + Render(t);
    forall p | 0 <= p < |Placeholder(j)|
      ensures !(Placeholder(k) <= s[p..])
    {
      if p > 0 {
        NoOverlap(j, k, t, p);
      } else if Placeholder(k) <= s[0..] {
        assert s[0..] == s;
        PlaceholdersDiffer(j, k, Render(t));
      }
    }
    FindPast(Placeholder(j), Render(t), Placeholder(k));
  }

  lemma {:induction false} PastSymbol(t: seq<Symbol>, k: nat)
    requires Clean(t) && t != [] && t[0] != Ph(k)
    ensures Find(Render(t), Placeholder(k)) == Shift(Find(Render(t[1..]), Placeholder(k)), |Written(t[0])|)
  {
    match t[0]
    case Ch(c) =>
      NoOtherPlaceholder(t, k);
      FindStep(Render(t), Placeholder(k));
      assert Render(t)[1..] == Render(t[1..]);
    case Ph(j) =>
      CleanTail(t);
      PastPlaceholder(j, k, t[1..]);
    case Tg(tag) =>
      TagsHideNoPlaceholder(tag, k);
      SkipOpaque(TagText(tag), Render(t[1..]), Placeholder(k), 0);
      assert (TagText(tag) + Render(t[1..]))[0..] == Render(t);
  }

  /** Searching the characters for a placeholder finds the placeholder symbol. */
  lemma {:induction false} FindPlaceholder(t: seq<Symbol>, k: nat)
    requires Clean(t)
    ensures Find(Render(t), Placeholder(k)) == RenderedAt(t, Find(t, [Ph(k)]))
  {
    if t == [] {
      PlaceholderShape(k);
    } else if t[0] == Ph(k) {
      assert t[..0] == [];
    } else {
      CleanTail(t);
      FindPlaceholder(t[1..], k);
      FindStep(t, [Ph(k)]);
      RenderedOneFurther(t, Find(t[1..], [Ph(k)]));
      PastSymbol(t, k);
    }
  }

  // ---------- Putting the blocks back ----------

  lemma {:induction false} FoundSymbol(t: seq<Symbol>, k: nat)
    requires Find(t, [Ph(k)]).Some?
    ensures var i := Find(t, [Ph(k)]).value;
      i < |t| && t == t[..i] + [Ph(k)] + t[i + 1..] && Ph(k) !in t[..i]
  {
    FindIsFirst(t, [Ph(k)]);
    var i := Find(t, [Ph(k)]).value;
    assert t[i..i + 1] == [Ph(k)];
    forall j | 0 <= j < i
      ensures t[j] != Ph(k)
    {
      assert !OccursAt(t, [Ph(k)], j);
      assert t[j..j + 1] == [t[j]];
    }
  }

  lemma {:induction false} CutAtSymbol(t: seq<Symbol>, i: nat)
    requires i < |t|
    ensures var at := |Render(t[..i])|;
      && at + |Written(t[i])| <= |Render(t)|
      && Render(t)[..at] == Render(t[..i])
      && Render(t)[at + |Written(t[i])|..] == Render(t[i + 1..])
  {
    assert t == t[..i] + [t[i]] + t[i + 1..];
    RenderThree(t[..i], [t[i]], t[i + 1..]);
    RenderOne(t[i]);
  }

  lemma {:induction false} ReplacePlaceholder(t: seq<Symbol>, k: nat, to: seq<Symbol>)
    requires Clean(t)
    ensures ReplaceAll(Render(t), Placeholder(k), Render(to)) == Render(ReplaceAll(t, [Ph(k)], to))
    decreases |t|
  {
    FindPlaceholder(t, k);
    match Find(t, [Ph(k)])
    case None =>
    case Some(i) =>
      FoundSymbol(t, k);
      CleanHalves(t[..i] + [Ph(k)], t[i + 1..]);
      ReplacePlaceholder(t[i + 1..], k, to);
      ReplaceFound(t, k, to, i, t[i + 1..]);
  }

  lemma {:induction false} ReplaceFound(t: seq<Symbol>, k: nat, to: seq<Symbol>, i: nat, rest: seq<Symbol>)
    requires i < |t| && t[i] == Ph(k) && rest == t[i + 1..] && Find(t, [Ph(k)]) == Some(i)
    requires Find(Render(t), Placeholder(k)) == Some(|Render(t[..i])|)
    requires ReplaceAll(Render(rest), Placeholder(k), Render(to)) == Render(ReplaceAll(rest, [Ph(k)], to))
    ensures ReplaceAll(Render(t), Placeholder(k), Render(to)) == Render(ReplaceAll(t, [Ph(k)], to))
  {
    CutAtSymbol(t, i);
    ReplaceAt(t, [Ph(k)], to, i, rest);
    ReplaceAt(Render(t), Placeholder(k), Render(to), |Render(t[..i])|, Render(rest));
    RenderThree(t[..i], to, ReplaceAll(rest, [Ph(k)], to));
  }

  lemma {:induction false} ReplaceClean(t: seq<Symbol>, k: nat, x: Symbol, inside: seq<Symbol>, y: Symbol)
    requires Clean(t) && Clean(inside) && !x.Ch? && !y.Ch?
    ensures Clean(ReplaceAll(t, [Ph(k)], [x] + inside + [y]))
    decreases |t|
  {
    var found := Find(t, [Ph(k)]);
    if found.Some? {
      var i, rest := found.value, t[found.value + 1..];
      FoundSymbol(t, k);
      CleanHalves(t[..i] + [Ph(k)], rest);
      CleanHalves(t[..i], [Ph(k)]);
      ReplaceClean(rest, k, x, inside, y);
      ReplaceAt(t, [Ph(k)], [x] + inside + [y], i, rest);
      CleanEnclosed(t[..i], x, inside, y, ReplaceAll(rest, [Ph(k)], [x] + inside + [y]));
    }
  }

  /** The text with the placeholders from number `from` on replaced by their blocks. */
  function Filled(t: seq<Symbol>, blocks: seq<seq<Symbol>>, from: nat): seq<Symbol> {
    if t == [] then []
    else FilledSymbol(t[0], blocks, from) + Filled(t[1..], blocks, from)
  }

  function FilledSymbol(x: Symbol, blocks: seq<seq<Symbol>>, from: nat): seq<Symbol> {
    if x.Ph? && from <= x.k < |blocks| then blocks[x.k] else [x]
  }

  lemma {:induction false} FilledConcat(a: seq<Symbol>, b: seq<Symbol>, blocks: seq<seq<Symbol>>, from: nat)
    ensures Filled(a + b, blocks, from) == Filled(a, blocks, from) + Filled(b, blocks, from)
  {
    if a == [] {
      assert a + b == b;
    } else {
      assert (a + b)[1..] == a[1..] + b;
      FilledConcat(a[1..], b, blocks, from);
    }
  }

  ghost predicate NoPlaceholders(t: seq<Symbol>, from: nat) {
    forall i :: 0 <= i < |t| && t[i].Ph? ==> t[i].k < from
  }

  lemma {:induction false} NothingToFill(t: seq<Symbol>, blocks: seq<seq<Symbol>>, from: nat)
    requires NoPlaceholders(t, from)
    ensures Filled(t, blocks, from) == t
  {
    if t != [] {
      NothingToFill(t[1..], blocks, from);
    }
  }

  lemma {:induction false} FillLater(t: seq<Symbol>, blocks: seq<seq<Symbol>>, from: nat)
    requires Ph(from) !in t
    ensures Filled(t, blocks, from) == Filled(t, blocks, from + 1)
  {
    if t != [] {
      FillLater(t[1..], blocks, from);
    }
  }

  /** Filling is replacing the first number and then filling the rest. */
  lemma {:induction false} FillOne(t: seq<Symbol>, blocks: seq<seq<Symbol>>, k: nat)
    requires k < |blocks| && NoPlaceholders(blocks[k], 0)
    ensures Filled(ReplaceAll(t, [Ph(k)], blocks[k]), blocks, k + 1) == Filled(t, blocks, k)
    decreases |t|
  {
    match Find(t, [Ph(k)])
    case None =>
      FindIsFirst(t, [Ph(k)]);
      forall i | 0 <= i < |t|
        ensures t[i] != Ph(k)
      {
        assert !OccursAt(t, [Ph(k)], i);
        assert t[i..i + 1] == [t[i]];
      }
      FillLater(t, blocks, k);
    case Some(i) =>
      FoundSymbol(t, k);
      FillFound(t, blocks, k, i, t[i + 1..]);
  }

  lemma {:induction false} FillFound(t: seq<Symbol>, blocks: seq<seq<Symbol>>, k: nat, i: nat, rest: seq<Symbol>)
    requires k < |blocks| && NoPlaceholders(blocks[k], 0) && Find(t, [Ph(k)]) == Some(i)
    requires i < |t| && rest == t[i + 1..] && t == t[..i] + [Ph(k)] + rest && Ph(k) !in t[..i]
    ensures Filled(ReplaceAll(t, [Ph(k)], blocks[k]), blocks, k + 1) == Filled(t, blocks, k)
    decreases |t|, 0
  {
    var later := ReplaceAll(rest, [Ph(k)], blocks[k]);
    ReplaceAt(t, [Ph(k)], blocks[k], i, rest);
    FilledConcat(t[..i] + blocks[k], later, blocks, k + 1);
    FilledConcat(t[..i], blocks[k], blocks, k + 1);
    NothingToFill(blocks[k], blocks, k + 1);
    FillOne(rest, blocks, k);
    FillLater(t[..i], blocks, k);
    FilledConcat(t[..i] + [Ph(k)], rest, blocks, k);
    FilledConcat(t[..i], [Ph(k)], blocks, k);
    FilledOne(Ph(k), blocks, k);
  }

  lemma {:induction false} FilledOne(x: Symbol, blocks: seq<seq<Symbol>>, from: nat)
    ensures Filled([x], blocks, from) == FilledSymbol(x, blocks, from)
  {
  }

  /** What putting blocks back needs to know of them. */
  ghost predicate BlockLike(b: seq<Symbol>) {
    && NoPlaceholders(b, 0)
    && exists inside :: Clean(inside) && b == [Tg(PreOpen)] + inside + [Tg(PreClose)]
  }

  lemma {:induction false} RestoreFills(t: seq<Symbol>, texts: seq<string>, blocks: seq<seq<Symbol>>, k: nat)
    requires k <= |texts| == |blocks| && Clean(t)
    requires forall i :: 0 <= i < |blocks| ==> Render(blocks[i]) == texts[i] && BlockLike(blocks[i])
    ensures RestoreBlocks(Render(t), texts, k) == Render(Filled(t, blocks, k))
    decreases |texts| - k
  {
    if k == |texts| {
      NothingLeft(t, blocks);
    } else {
      ReplacePlaceholder(t, k, blocks[k]);
      var inside :| Clean(inside) && blocks[k] == [Tg(PreOpen)] + inside + [Tg(PreClose)];
      ReplaceClean(t, k, Tg(PreOpen), inside, Tg(PreClose));
      RestoreFills(ReplaceAll(t, [Ph(k)], blocks[k]), texts, blocks, k + 1);
      FillOne(t, blocks, k);
    }
  }

  lemma {:induction false} NothingLeft(t: seq<Symbol>, blocks: seq<seq<Symbol>>)
    ensures Filled(t, blocks, |blocks|) == t
  {
    if t != [] {
      NothingLeft(t[1..], blocks);
    }
  }

  // ---------- Where the text starts from ----------

  lemma {:induction false} NoMarkPart(a: string, s: string, b: string)
    requires NoMark(a + s + b)
    ensures NoMark(s)
  {
    forall i
      ensures !OccursAt(s, MARK, i)
    {
      if OccursAt(s, MARK, i) {
        OccursIn(a, s, b, MARK, i);
      }
    }
  }

  lemma {:induction false} PrefixStep(c: char, s: string, d: string)
    requires d != ""
    ensures d <= [c] + s <==> d[0] == c && d[1..] <= s
  {
  }

  lemma {:induction false} EntitiesStartElsewhere(c: char, d: char)
    requires d in MARK
    ensures EscapeChar(c)[0] == d <==> c == d
    ensures c == d ==> EscapeChar(c) == [c]
  {
  }

  /** Escaping neither makes nor breaks a run of characters of the marker. */
  lemma {:induction false} EscapedPrefix(s: string, d: string)
    requires forall i :: 0 <= i < |d| ==> d[i] in MARK
    ensures d <= EscapeHtml(s) <==> d <= s
  {
    if s != "" && d != "" {
      EntitiesStartElsewhere(s[0], d[0]);
      assert EscapeHtml(s)[0] == EscapeChar(s[0])[0];
      if s[0] == d[0] {
        EscapedPrefix(s[1..], d[1..]);
        PrefixStep(s[0], s[1..], d);
        PrefixStep(s[0], EscapeHtml(s[1..]), d);
        assert s == [s[0]] + s[1..];
      }
    }
  }

  lemma {:induction false} EntitiesHaveNoMark(c: char, p: nat)
    requires p < |EscapeChar(c)| && |EscapeChar(c)| > 1
    ensures EscapeChar(c)[p] != 'T'
  {
  }

  lemma {:induction false} OccursIsPrefix(s: string, d: string, i: int)
    requires OccursAt(s, d, i)
    ensures d <= s[i..]
  {
  }

  lemma {:induction false} MarkNotIn(w: string, rest: string)
    requires forall p :: 0 <= p < |w| ==> !(MARK <= (w + rest)[p..])
    requires NoMark(rest)
    ensures NoMark(w + rest)
  {
    forall i
      ensures !OccursAt(w + rest, MARK, i)
    {
      if OccursAt(w + rest, MARK, i) {
        if i < |w| {
          OccursIsPrefix(w + rest, MARK, i);
        } else {
          assert (w + rest)[i..i + |MARK|] == rest[i - |w|..i - |w| + |MARK|];
          assert OccursAt(rest, MARK, i - |w|);
        }
      }
    }
  }

  lemma {:induction false} EscapedHasNoMark(s: string)
    requires NoMark(s)
    ensures NoMark(EscapeHtml(s))
  {
    if s != "" {
      assert s == [s[0]] + s[1..] + [];
      NoMarkPart([s[0]], s[1..], []);
      EscapedHasNoMark(s[1..]);
      var e, rest := EscapeChar(s[0]), EscapeHtml(s[1..]);
      forall p | 0 <= p < |e|
        ensures !(MARK <= (e + rest)[p..])
      {
        assert (e + rest)[p..][0] == e[p];
        if |e| > 1 {
          EntitiesHaveNoMark(s[0], p);
        } else {
          EscapedPrefix(s, MARK);
          assert MARK <= s ==> OccursAt(s, MARK, 0);
          assert (e + rest)[0..] == EscapeHtml(s);
        }
      }
      MarkNotIn(e, rest);
    }
  }

  lemma {:induction false} CharsOccur(s: string, d: string, i: int)
    requires OccursAt(Chars(s), Chars(d), i)
    ensures OccursAt(s, d, i)
  {
    forall j | 0 <= j < |d|
      ensures s[i..i + |d|][j] == d[j]
    {
      assert Chars(s)[i..i + |d|][j] == Chars(d)[j];
    }
  }

  lemma {:induction false} CharsClean(s: string)
    requires NoMark(s)
    ensures Clean(Chars(s))
  {
    forall i
      ensures !OccursAt(Chars(s), Chars(MARK), i)
    {
      if OccursAt(Chars(s), Chars(MARK), i) {
        CharsOccur(s, MARK, i);
      }
    }
  }

  /** The escaped outline with its placeholders as symbols. */
  function Placed(doc: Doc, k: nat): seq<Symbol> {
    match doc
    case End(tail) => Chars(EscapeHtml(tail))
    case Block(before, body, rest) => Chars(EscapeHtml(before)) + [Ph(k)] + Placed(rest, k + 1)
  }

  lemma {:induction false} EscapeConcat(a: string, b: string)
    ensures EscapeHtml(a + b) == EscapeHtml(a) + EscapeHtml(b)
  {
    if a == "" {
      assert a + b == b;
    } else {
      assert (a + b)[1..] == a[1..] + b;
      EscapeConcat(a[1..], b);
      Rejoin(EscapeChar(a[0]), EscapeHtml(a[1..]), EscapeHtml(b));
    }
  }

  lemma {:induction false} EscapePlain(s: string)
    requires forall p :: 0 <= p < |s| ==> EscapeChar(s[p]) == [s[p]]
    ensures EscapeHtml(s) == s
  {
    if s != "" {
      EscapePlain(s[1..]);
    }
  }

  lemma {:induction false} EscapePlaceholder(k: nat)
    ensures EscapeHtml(Placeholder(k)) == Placeholder(k)
  {
    var w := Placeholder(k);
    forall p | 0 <= p < |w|
      ensures EscapeChar(w[p]) == [w[p]]
    {
      PlaceholderPlain(k, p);
    }
    EscapePlain(w);
  }

  lemma {:induction false} PlacedRender(doc: Doc, k: nat)
    ensures Render(Placed(doc, k)) == EscapeHtml(Outline(doc, k))
  {
    match doc
    case End(tail) => RenderChars(EscapeHtml(tail));
    case Block(before, body, rest) =>
      PlacedRender(rest, k + 1);
      RenderThree(Chars(EscapeHtml(before)), [Ph(k)], Placed(rest, k + 1));
      RenderChars(EscapeHtml(before));
      RenderOne(Ph(k));
      EscapeConcat(before + Placeholder(k), Outline(rest, k + 1));
      EscapeConcat(before, Placeholder(k));
      EscapePlaceholder(k);
  }

  /** A cut text splits into parts of the text. */
  lemma {:induction false} CutParts(text: string, before: string, body: string, rest: Doc) returns (tail: string)
    requires NoMark(text) && CutByRegex(text, Block(before, body, rest))
    ensures NoMark(before) && NoMark(body) && NoMark(tail) && CutByRegex(tail, rest)
  {
    var i, j, info :| FirstFence(text, i, j, info, body) && before == text[..i] && CutByRegex(text[j..], rest);
    tail := text[j..];
    FenceMatchParts(text, i, j, info, body);
    MatchParts(text, i, i + 3 + |info| + 1, j, body);
  }

  lemma {:induction false} MatchParts(text: string, i: nat, start: nat, end: nat, body: string)
    requires NoMark(text) && i <= start && start + 3 <= end <= |text| && body == text[start..end - 3]
    ensures NoMark(text[..i]) && NoMark(body) && NoMark(text[end..])
  {
    assert text == [] + text[..i] + text[i..];
    NoMarkPart([], text[..i], text[i..]);
    assert text == text[..start] + body + text[end - 3..];
    NoMarkPart(text[..start], body, text[end - 3..]);
    assert text == text[..end] + text[end..] + [];
    NoMarkPart(text[..end], text[end..], []);
  }

  lemma {:induction false} PlacedClean(text: string, doc: Doc, k: nat)
    requires NoMark(text) && CutByRegex(text, doc)
    ensures Clean(Placed(doc, k))
    decreases doc
  {
    match doc
    case End(tail) =>
      EscapedHasNoMark(text);
      CharsClean(EscapeHtml(text));
    case Block(before, body, rest) =>
      var tail := CutParts(text, before, body, rest);
      EscapedHasNoMark(before);
      CharsClean(EscapeHtml(before));
      PlacedClean(tail, rest, k + 1);
      CleanBeside(Chars(EscapeHtml(before)), Ph(k), Placed(rest, k + 1));
  }

  lemma {:induction false} TrimIsPart(s: string) returns (a: string, b: string)
    ensures s == a + Trim(s, IsNewline) + b
  {
    var t := TrimStart(s, IsNewline);
    a := TrimStartIsPart(s);
    b := TrimEndIsPart(t);
    Rejoin(a, Trim(s, IsNewline), b);
  }

  lemma {:induction false} TrimStartIsPart(s: string) returns (a: string)
    ensures s == a + TrimStart(s, IsNewline)
  {
    a := "";
    if s != "" && IsNewline(s[0]) {
      a := TrimStartIsPart(s[1..]);
      assert s == [s[0]] + (a + TrimStart(s[1..], IsNewline));
      a := [s[0]] + a;
    }
  }

  lemma {:induction false} TrimEndIsPart(s: string) returns (b: string)
    ensures s == TrimEnd(s, IsNewline) + b
  {
    b := "";
    if s != "" && IsNewline(s[|s| - 1]) {
      b := TrimEndIsPart(s[..|s| - 1]);
      assert s == (TrimEnd(s[..|s| - 1], IsNewline) + b) + [s[|s| - 1]];
      b := b + [s[|s| - 1]];
    }
  }

  lemma {:induction false} BlockIsBlockLike(body: string)
    requires NoMark(body)
    ensures BlockLike(BlockSymbols(body))
  {
    var a, b := TrimIsPart(body);
    var trimmed := Trim(body, IsNewline);
    NoMarkPart(a, trimmed, b);
    EscapedHasNoMark(trimmed);
    var inside := Chars(EscapeHtml(trimmed));
    CharsClean(EscapeHtml(trimmed));
    CharsClean("");
    CleanEnclosed([], Tg(CodeOpen), inside, Tg(CodeClose), []);
    var code := [] + ([Tg(CodeOpen)] + inside + [Tg(CodeClose)]) + [];
    assert BlockSymbols(body) == [Tg(PreOpen)] + code + [Tg(PreClose)];
  }

  lemma {:induction false} BlocksAreBlockLike(text: string, doc: Doc)
    requires NoMark(text) && CutByRegex(text, doc)
    ensures forall k :: 0 <= k < |BlocksOf(doc)| ==> BlockLike(BlocksOf(doc)[k])
    decreases doc
  {
    if doc.Block? {
      var tail := CutParts(text, doc.before, doc.body, doc.rest);
      BlockIsBlockLike(doc.body);
      BlocksAreBlockLike(tail, doc.rest);
    }
  }

  lemma {:induction false} PlacedCopies(doc: Doc, from: nat, k: nat)
    ensures Copies(Placed(doc, from), k) == if from <= k < from + |CodeBlocks(doc)| then 1 else 0
  {
    match doc
    case End(tail) => CharsHaveNoPlaceholder(Chars(EscapeHtml(tail)), k);
    case Block(before, body, rest) =>
      var front := Chars(EscapeHtml(before));
      CharsHaveNoPlaceholder(front, k);
      PlacedCopies(rest, from + 1, k);
      CopiesAdd(front + [Ph(from)], Placed(rest, from + 1), k);
      CopiesAdd(front, [Ph(from)], k);
  }

  // ---------- The theorem ----------

  /** pieces[0] + inserts[0] + pieces[1] + ... */
  function Woven(pieces: seq<string>, inserts: seq<string>): string
    requires |pieces| == |inserts| + 1
  {
    if inserts == [] then pieces[0] else pieces[0] + (inserts[0] + Woven(pieces[1..], inserts[1..]))
  }

  function Placeholders(order: seq<nat>): seq<string> {
    seq(|order|, i requires 0 <= i < |order| => Placeholder(order[i]))
  }

  ghost predicate Within(order: seq<nat>, n: nat) {
    forall i :: 0 <= i < |order| ==> order[i] < n
  }

  function Chosen(order: seq<nat>, texts: seq<string>): seq<string>
    requires Within(order, |texts|)
  {
    seq(|order|, i requires 0 <= i < |order| => texts[order[i]])
  }

  /** The text between the placeholders. */
  function Pieces(t: seq<Symbol>): (r: seq<string>)
    ensures |r| == |Order(t)| + 1
  {
    if t == [] then [""]
    else
      var later := Pieces(t[1..]);
      if t[0].Ph? then [""] + later else [Written(t[0]) + later[0]] + later[1..]
  }

  function Order(t: seq<Symbol>): seq<nat> {
    if t == [] then []
    else if t[0].Ph? then [t[0].k] + Order(t[1..])
    else Order(t[1..])
  }

  lemma {:induction false} WovenMore(w: string, pieces: seq<string>, inserts: seq<string>)
    requires |pieces| == |inserts| + 1
    ensures Woven([w + pieces[0]] + pieces[1..], inserts) == w + Woven(pieces, inserts)
  {
  }

  lemma {:induction false} WovenNext(insert: string, pieces: seq<string>, inserts: seq<string>)
    requires |pieces| == |inserts| + 1
    ensures Woven([""] + pieces, [insert] + inserts) == insert + Woven(pieces, inserts)
  {
  }

  lemma {:induction false} RenderIsWoven(t: seq<Symbol>)
    ensures Render(t) == Woven(Pieces(t), Placeholders(Order(t)))
  {
    if t != [] {
      RenderIsWoven(t[1..]);
      var later := Order(t[1..]);
      if t[0].Ph? {
        assert Placeholders(Order(t)) == [Placeholder(t[0].k)] + Placeholders(later);
        WovenNext(Placeholder(t[0].k), Pieces(t[1..]), Placeholders(later));
      } else {
        WovenMore(Written(t[0]), Pieces(t[1..]), Placeholders(later));
      }
    }
  }

  lemma {:induction false} LaterWithin(k: nat, later: seq<nat>, texts: seq<string>)
    requires Within([k] + later, |texts|)
    ensures Within(later, |texts|) && k < |texts|
    ensures Chosen([k] + later, texts) == [texts[k]] + Chosen(later, texts)
  {
    assert ([k] + later)[0] == k;
    forall i | 0 <= i < |later|
      ensures later[i] < |texts|
    {
      assert ([k] + later)[i + 1] == later[i];
    }
  }

  lemma {:induction false} FilledIsWoven(t: seq<Symbol>, texts: seq<string>, blocks: seq<seq<Symbol>>)
    requires |texts| == |blocks| && Within(Order(t), |texts|)
    requires forall i :: 0 <= i < |blocks| ==> Render(blocks[i]) == texts[i]
    ensures Render(Filled(t, blocks, 0)) == Woven(Pieces(t), Chosen(Order(t), texts))
  {
    if t != [] {
      RenderConcat(FilledSymbol(t[0], blocks, 0), Filled(t[1..], blocks, 0));
      var later := Order(t[1..]);
      if t[0].Ph? {
        LaterWithin(t[0].k, later, texts);
        FilledIsWoven(t[1..], texts, blocks);
        WovenNext(texts[t[0].k], Pieces(t[1..]), Chosen(later, texts));
      } else {
        FilledIsWoven(t[1..], texts, blocks);
        RenderOne(t[0]);
        WovenMore(Written(t[0]), Pieces(t[1..]), Chosen(later, texts));
      }
    }
  }

  lemma {:induction false} FirstPieceLeads(t: seq<Symbol>)
    ensures Pieces(t)[0] <= Render(t)
  {
    if t != [] && !t[0].Ph? {
      FirstPieceLeads(t[1..]);
    }
  }

  lemma {:induction false} PiecesHaveNoMark(t: seq<Symbol>)
    requires Clean(t)
    ensures forall i :: 0 <= i < |Pieces(t)| ==> NoMark(Pieces(t)[i])
  {
    if t != [] {
      CleanTail(t);
      PiecesHaveNoMark(t[1..]);
      if !t[0].Ph? {
        FirstPieceHasNoMark(t);
      }
    }
  }

  lemma {:induction false} FirstPieceHasNoMark(t: seq<Symbol>)
    requires Clean(t) && t != [] && !t[0].Ph? && NoMark(Pieces(t[1..])[0])
    ensures NoMark(Written(t[0]) + Pieces(t[1..])[0])
  {
    var w, later := Written(t[0]), Pieces(t[1..])[0];
    FirstPieceLeads(t);
    MarkIsChars(t);
    assert (w + later)[0..] == Pieces(t)[0];
    forall p | 0 <= p < |w|
      ensures !(MARK <= (w + later)[p..])
    {
      assert (w + later)[p..][0] == w[p];
      if t[0].Tg? {
        TagPlain(t[0].tag, p);
      }
    }
    MarkNotIn(w, later);
  }

  lemma {:induction false} OrderCounts(t: seq<Symbol>, k: nat)
    ensures multiset(Order(t))[k] == Copies(t, k)
  {
    if t != [] {
      OrderCounts(t[1..], k);
      assert t == [t[0]] + t[1..];
      CopiesAdd([t[0]], t[1..], k);
    }
  }

  /** Every number below n once. */
  ghost predicate EachOnce(order: seq<nat>, n: nat) {
    forall k: nat :: multiset(order)[k] == if k < n then 1 else 0
  }

  lemma {:induction false} OnceIsWithin(order: seq<nat>, n: nat)
    requires EachOnce(order, n)
    ensures Within(order, n)
  {
    forall i | 0 <= i < |order|
      ensures order[i] < n
    {
      assert order[i] in multiset(order);
    }
  }

  /** If the marker is not in the text, the passes turn the outline into pieces of text with every
      placeholder whole and once between them, and the HTML is the same pieces with the blocks,
      verbatim, in the places of their placeholders. */
  lemma {:induction false} BlocksAppearVerbatim(text: string) returns (pieces: seq<string>, order: seq<nat>)
    requires NoMark(text)
    ensures EachOnce(order, |CodeBlocks(Fences(text))|) && Within(order, |CodeBlocks(Fences(text))|)
    ensures |pieces| == |order| + 1 && forall i :: 0 <= i < |pieces| ==> NoMark(pieces[i])
    ensures Spans(EscapeHtml(Outline(Fences(text), 0))) == Woven(pieces, Placeholders(order))
    ensures MarkdownToHtml(text) == Woven(pieces, Chosen(order, CodeBlocks(Fences(text))))
  {
    var doc := Fences(text);
    var t, n := Placed(doc, 0), |CodeBlocks(doc)|;
    var u := SymbolSpans(t);
    pieces, order := Pieces(u), Order(u);
    ScannerMatchesRegex(text);
    PlacedClean(text, doc, 0);
    SpansClean(t);
    PiecesHaveNoMark(u);
    PassesMovePlaceholders(doc);
    OnceIsWithin(order, n);
    PlacedRender(doc, 0);
    SpansRender(t);
    RenderIsWoven(u);
    BlocksRender(doc);
    BlocksAreBlockLike(text, doc);
    RestoreFills(u, CodeBlocks(doc), BlocksOf(doc), 0);
    FilledIsWoven(u, CodeBlocks(doc), BlocksOf(doc));
  }

  lemma {:induction false} PassesMovePlaceholders(doc: Doc)
    ensures EachOnce(Order(SymbolSpans(Placed(doc, 0))), |CodeBlocks(doc)|)
  {
    var t := Placed(doc, 0);
    var u := SymbolSpans(t);
    SpansKept(t);
    forall k: nat
      ensures multiset(Order(u))[k] == if k < |CodeBlocks(doc)| then 1 else 0
    {
      OrderCounts(u, k);
      assert Copies(u, k) == Copies(t, k);
      PlacedCopies(doc, 0, k);
    }
  }
}
