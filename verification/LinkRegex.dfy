/** The link pass as a substitution: a link is a bracketed caption and a parenthesised address, and
    the leftmost ones, without overlap, become anchors. */
module LinkRegex {
  import opened Prelude
  import opened Text
  import opened Markdown
  import RoundTrips
  import Regexes

  /** The caption is not empty and ends at its first bracket; the address ends at its first
      parenthesis, is http or https, and has no white space. */
  predicate IsLink(caption: string, url: string) {
    && caption != "" && ']' !in caption && ')' !in url
    && ("http://" <= url || "https://" <= url)
    && forall k :: 0 <= k < |url| ==> !IsWhitespace(url[k])
  }

  ghost predicate LinkMatch(text: string, i: int, j: int, caption: string, url: string) {
    && 0 <= i <= j <= |text| && IsLink(caption, url)
    && text[i..j] == "[" + caption + "](" + url + ")"
  }

  ghost predicate NoLink(text: string) {
    forall i, j, caption, url :: !LinkMatch(text, i, j, caption, url)
  }

  /** No link starts earlier, and no other at its start. */
  ghost predicate FirstLink(text: string, i: int, j: int, caption: string, url: string) {
    && LinkMatch(text, i, j, caption, url)
    && forall i', j', caption', url' :: LinkMatch(text, i', j', caption', url') ==>
         i < i' || (i == i' && j == j' && caption == caption' && url == url')
  }

  datatype LinkDoc = LinkEnd(tail: string) | LinkBlock(before: string, caption: string, url: string, rest: LinkDoc)

  /** doc is the text cut at its leftmost links, without overlap. */
  ghost predicate CutByLinks(text: string, doc: LinkDoc) {
    match doc
    case LinkEnd(tail) => tail == text && NoLink(text)
    case LinkBlock(before, caption, url, rest) =>
      exists i, j :: FirstLink(text, i, j, caption, url) && before == text[..i] && CutByLinks(text[j..], rest)
  }

  /** The cut text with every link written as an anchor. */
  function Anchored(doc: LinkDoc): string {
    match doc
    case LinkEnd(tail) => tail
    case LinkBlock(before, caption, url, rest) =>
      before + ("<a href=\"" + url + "\">" + caption + "</a>") + Anchored(rest)
  }

  // ---------- One link ----------

  lemma {:induction false} SplitBefore(s: string, c: char)
    ensures SplitOnce(s, c).None? ==> c !in s
    ensures SplitOnce(s, c).Some? ==> c !in SplitOnce(s, c).value.before
  {
    if s != "" && s[0] != c {
      SplitBefore(s[1..], c);
    }
  }

  lemma {:induction false} UrlIsOk(caption: string, url: string)
    ensures caption != "" && ']' !in caption && ')' !in url ==> (IsLink(caption, url) <==> UrlOk(url))
  {
  }

  /** The parts of a link are found after its bracket. */
  lemma {:induction false} LinkIsFound(caption: string, url: string, rest: string)
    requires IsLink(caption, url)
    ensures LinkFrom(caption + ("](" + (url + (")" + rest))), LINKS, UrlOk) == Some(Link(caption, url, rest))
  {
    var tail := "(" + (url + (")" + rest));
    assert "](" + (url + (")" + rest)) == [']'] + tail;
    RoundTrips.SplitAt(caption, ']', tail);
    assert tail[0] == '(' && tail[1..] == url + ([')'] + rest);
    RoundTrips.SplitAt(url, ')', rest);
    UrlIsOk(caption, url);
  }

  lemma {:induction false} FoundIsLink(after: string, link: Link<char>)
    requires LinkFrom(after, LINKS, UrlOk) == Some(link)
    ensures IsLink(link.caption, link.url)
    ensures after == link.caption + ("](" + (link.url + (")" + link.rest)))
  {
    var inner := FoundParts(after, link);
    UrlIsOk(link.caption, link.url);
    LinkSpelled(link.caption, link.url, link.rest, inner);
  }

  lemma {:induction false} FoundParts(after: string, link: Link<char>) returns (inner: string)
    requires LinkFrom(after, LINKS, UrlOk) == Some(link)
    ensures link.caption != "" && ']' !in link.caption && ')' !in link.url && UrlOk(link.url)
    ensures after == link.caption + [']'] + (['('] + inner) && inner == link.url + [')'] + link.rest
  {
    SplitBefore(after, ']');
    var cut := SplitOnce(after, ']').value;
    inner := cut.after[1..];
    AddressParts(cut.before, inner, link);
    assert cut.after == ['('] + inner;
  }

  lemma {:induction false} AddressParts(caption: string, inner: string, link: Link<char>)
    requires LinkWith(caption, inner, LINKS, UrlOk) == Some(link)
    ensures link.caption == caption != "" && ')' !in link.url && UrlOk(link.url)
    ensures inner == link.url + [')'] + link.rest
  {
    SplitBefore(inner, ')');
  }

  lemma {:induction false} LinkSpelled(caption: string, url: string, rest: string, inner: string)
    requires inner == url + [')'] + rest
    ensures caption + [']'] + (['('] + inner) == caption + ("](" + (url + (")" + rest)))
  {
    assert "](" + (url + (")" + rest)) == [']'] + (['('] + inner);
  }

  // ---------- Where links start ----------

  lemma {:induction false} LinkParts(text: string, i: int, j: int, caption: string, url: string)
    requires LinkMatch(text, i, j, caption, url)
    ensures i < |text| && text[i] == '[' && j == i + |caption| + |url| + 4
    ensures text[i + 1..] == caption + ("](" + (url + (")" + text[j..])))
  {
    var w := text[i..j];
    assert w[0] == '[' && w[0] == text[i];
    assert w == "[" + (caption + ("](" + (url + ")")));
    assert text[i..] == w + text[j..];
    assert text[i + 1..] == text[i..][1..] == caption + ("](" + (url + ")")) + text[j..];
    assert caption + ("](" + (url + ")")) + text[j..] == caption + ("](" + (url + (")" + text[j..])));
  }

  lemma {:induction false} LinkHere(text: string, n: nat, caption: string, url: string, rest: string)
    requires n <= |text| && IsLink(caption, url) && text[n..] == "[" + (caption + ("](" + (url + (")" + rest))))
    ensures var j := n + |caption| + |url| + 4;
      j <= |text| && LinkMatch(text, n, j, caption, url) && text[j..] == rest
  {
    var j := n + |caption| + |url| + 4;
    var word := "[" + caption + "](" + url + ")";
    assert text[n..] == word + rest;
    assert |text| == n + |word| + |rest|;
    assert text[n..j] == text[n..][..|word|] == word;
    assert text[j..] == text[n..][|word|..] == rest;
  }

  /** What one round of the pass reads. */
  datatype Reading = NoBracket | Bracket(n: nat) | Found(n: nat, caption: string, url: string, rest: string)

  lemma {:induction false} ReadRound(text: string) returns (r: Reading)
    ensures match r
            case NoBracket => '[' !in text && LinkRound(text, LINKS, UrlOk) == Last(text)
            case Bracket(n) =>
              && n < |text| && '[' !in text[..n] && text[n] == '['
              && LinkFrom(text[n + 1..], LINKS, UrlOk) == None
              && LinkRound(text, LINKS, UrlOk) == More(text[..n + 1], text[n + 1..])
            case Found(n, caption, url, rest) =>
              && n < |text| && '[' !in text[..n] && text[n] == '['
              && LinkFrom(text[n + 1..], LINKS, UrlOk) == Some(Link(caption, url, rest))
              && LinkRound(text, LINKS, UrlOk)
                 == More(text[..n] + ("<a href=\"" + url + "\">" + caption + "</a>"), rest)
  {
    SplitBefore(text, '[');
    match SplitOnce(text, '[')
    case None => r := NoBracket;
    case Some(cut) =>
      var n := |cut.before|;
      assert text[..n] == cut.before && text[n + 1..] == cut.after && text[n] == '[';
      assert text[..n + 1] == cut.before + ['['];
      match LinkFrom(cut.after, LINKS, UrlOk)
      case None => r := Bracket(n);
      case Some(link) => r := Found(n, link.caption, link.url, link.rest);
  }

  lemma {:induction false} NotBefore(text: string, n: nat, i: int, j: int, caption: string, url: string)
    requires n <= |text| && '[' !in text[..n] && LinkMatch(text, i, j, caption, url)
    ensures n <= i
  {
    LinkParts(text, i, j, caption, url);
    assert forall k :: 0 <= k < n ==> text[..n][k] == text[k];
  }

  lemma {:induction false} BracketIsSkipped(text: string, n: nat)
    requires n < |text| && '[' !in text[..n] && LinkFrom(text[n + 1..], LINKS, UrlOk) == None
    ensures forall i, j, caption, url :: LinkMatch(text, i, j, caption, url) ==> n + 1 <= i
  {
    forall i, j, caption, url | LinkMatch(text, i, j, caption, url)
      ensures n + 1 <= i
    {
      NotBefore(text, n, i, j, caption, url);
      if i == n {
        LinkParts(text, i, j, caption, url);
        LinkIsFound(caption, url, text[j..]);
      }
    }
  }

  lemma {:induction false} FoundIsFirst(text: string, n: nat, link: Link<char>) returns (j: nat)
    requires n < |text| && '[' !in text[..n] && text[n] == '['
    requires LinkFrom(text[n + 1..], LINKS, UrlOk) == Some(link)
    ensures j <= |text| && FirstLink(text, n, j, link.caption, link.url) && text[j..] == link.rest
  {
    FoundIsLink(text[n + 1..], link);
    assert text[n..] == "[" + text[n + 1..];
    LinkHere(text, n, link.caption, link.url, link.rest);
    j := n + |link.caption| + |link.url| + 4;
    forall i', j', caption', url' | LinkMatch(text, i', j', caption', url')
      ensures n < i' || (n == i' && j == j' && link.caption == caption' && link.url == url')
    {
      NotBefore(text, n, i', j', caption', url');
      if i' == n {
        LinkParts(text, n, j', caption', url');
        LinkIsFound(caption', url', text[j'..]);
      }
    }
  }

  // ---------- The whole pass ----------

  lemma {:induction false} ShiftLink(text: string, n: nat, i: int, j: int, caption: string, url: string)
    requires n <= |text| && 0 <= i
    ensures LinkMatch(text[n..], i, j, caption, url) <==> LinkMatch(text, n + i, n + j, caption, url)
  {
    if i <= j && n + j <= |text| {
      assert text[n..][i..j] == text[n + i..n + j];
    }
  }

  function Prepended(x: string, doc: LinkDoc): LinkDoc {
    match doc
    case LinkEnd(tail) => LinkEnd(x + tail)
    case LinkBlock(before, caption, url, rest) => LinkBlock(x + before, caption, url, rest)
  }

  lemma {:induction false} PrependedAnchored(x: string, doc: LinkDoc)
    ensures Anchored(Prepended(x, doc)) == x + Anchored(doc)
  {
    match doc
    case LinkEnd(tail) =>
    case LinkBlock(before, caption, url, rest) =>
      var anchor := "<a href=\"" + url + "\">" + caption + "</a>";
      assert x + before + anchor + Anchored(rest) == x + (before + anchor + Anchored(rest));
  }

  lemma {:induction false} NoLinkAfterSkip(text: string, n: nat)
    requires n <= |text| && NoLink(text[n..])
    requires forall i, j, caption, url :: LinkMatch(text, i, j, caption, url) ==> n <= i
    ensures NoLink(text)
  {
    forall i, j, caption, url | LinkMatch(text, i, j, caption, url)
      ensures false
    {
      ShiftLink(text, n, i - n, j - n, caption, url);
    }
  }

  lemma {:induction false} FirstAfterSkip(text: string, n: nat, i: int, j: int, caption: string, url: string)
    requires n <= |text| && FirstLink(text[n..], i, j, caption, url)
    requires forall i, j, caption, url :: LinkMatch(text, i, j, caption, url) ==> n <= i
    ensures FirstLink(text, n + i, n + j, caption, url)
  {
    ShiftLink(text, n, i, j, caption, url);
    forall i', j', caption', url' | LinkMatch(text, i', j', caption', url')
      ensures n + i < i' || (n + i == i' && n + j == j' && caption == caption' && url == url')
    {
      ShiftLink(text, n, i' - n, j' - n, caption', url');
    }
  }

  lemma {:induction false} CutAfterSkip(text: string, n: nat, doc: LinkDoc)
    requires n <= |text| && CutByLinks(text[n..], doc)
    requires forall i, j, caption, url :: LinkMatch(text, i, j, caption, url) ==> n <= i
    ensures CutByLinks(text, Prepended(text[..n], doc))
  {
    match doc
    case LinkEnd(tail) =>
      NoLinkAfterSkip(text, n);
      assert text[..n] + text[n..] == text;
    case LinkBlock(before, caption, url, rest) =>
      var i, j :| FirstLink(text[n..], i, j, caption, url) && before == text[n..][..i]
                     && CutByLinks(text[n..][j..], rest);
      FirstAfterSkip(text, n, i, j, caption, url);
      Regexes.SlicedAfter(text, n, i, j);
      assert FirstLink(text, n + i, n + j, caption, url) && CutByLinks(text[n + j..], rest);
  }

  lemma {:induction false} LinksUnfold(text: string)
    ensures match LinkRound(text, LINKS, UrlOk)
            case Last(out) => Links(text, LINKS, UrlOk) == out
            case More(out, rest) => Links(text, LINKS, UrlOk) == out + Links(rest, LINKS, UrlOk)
  {
  }

  lemma {:induction false} NoBracketNoLink(text: string)
    requires '[' !in text
    ensures NoLink(text)
  {
    forall i, j, caption, url | LinkMatch(text, i, j, caption, url)
      ensures false
    {
      LinkParts(text, i, j, caption, url);
    }
  }

  /** On every text the link pass turns the leftmost links, without overlap, into anchors, and leaves
      the rest as it is. */
  lemma {:induction false} LinkPassMarksLinks(text: string) returns (doc: LinkDoc)
    ensures CutByLinks(text, doc) && Links(text, LINKS, UrlOk) == Anchored(doc)
    decreases |text|
  {
    var reading := ReadRound(text);
    LinksUnfold(text);
    match reading
    case NoBracket =>
      NoBracketNoLink(text);
      doc := LinkEnd(text);
    case Bracket(n) =>
      BracketIsSkipped(text, n);
      var rest := LinkPassMarksLinks(text[n + 1..]);
      CutAfterSkip(text, n + 1, rest);
      PrependedAnchored(text[..n + 1], rest);
      doc := Prepended(text[..n + 1], rest);
    case Found(n, caption, url, tail) =>
      var j := FoundIsFirst(text, n, Link(caption, url, tail));
      var rest := LinkPassMarksLinks(tail);
      doc := LinkBlock(text[..n], caption, url, rest);
  }

  /** There is one such cut. */
  lemma {:induction false} LinkCutIsUnique(text: string, a: LinkDoc, b: LinkDoc)
    requires CutByLinks(text, a) && CutByLinks(text, b)
    ensures a == b
    decreases a
  {
    if a.LinkBlock? && b.LinkBlock? {
      var i, j :| FirstLink(text, i, j, a.caption, a.url) && a.before == text[..i] && CutByLinks(text[j..], a.rest);
      var i', j' :| FirstLink(text, i', j', b.caption, b.url) && b.before == text[..i']
                       && CutByLinks(text[j'..], b.rest);
      assert i == i' && j == j';
      LinkCutIsUnique(text[j..], a.rest, b.rest);
    }
  }

  /** A link at the first bracket of a text becomes an anchor with that address and caption. */
  lemma {:induction false} FirstBracketBecomesAnchor(before: string, caption: string, url: string, rest: string)
    requires '[' !in before && IsLink(caption, url)
    ensures Links(before + ("[" + (caption + ("](" + (url + (")" + rest))))), LINKS, UrlOk)
         == before + ("<a href=\"" + url + "\">" + caption + "</a>") + Links(rest, LINKS, UrlOk)
  {
    var after := caption + ("](" + (url + (")" + rest)));
    LinkIsFound(caption, url, rest);
    RoundTrips.SplitAt(before, '[', after);
    assert "[" + after == ['['] + after;
    LinksUnfold(before + ("[" + after));
  }
}
