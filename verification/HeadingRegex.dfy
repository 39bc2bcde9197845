/** The heading scanner against the regular expression of the Python reference implementation. */
module HeadingRegex {
  import opened Prelude
  import opened Text
  import opened Markdown

  // ---------- `^\s{0,3}#{1,6}\s+(.+)$` ----------

  /** A way to match a line: i blanks, h hashes, w blanks, and a group that is not empty. */
  ghost predicate HeadingMatch(line: string, i: int, h: int, w: int) {
    && 0 <= i <= 3 && 1 <= h <= 6 && 1 <= w && i + h + w < |line|
    && (forall k :: 0 <= k < i ==> IsWhitespace(line[k]))
    && (forall k :: i <= k < i + h ==> IsHash(line[k]))
    && (forall k :: i + h <= k < i + h + w ==> IsWhitespace(line[k]))
  }

  /** The match taken: each repetition is as long as possible, the first ones first. */
  ghost predicate GreedyHeading(line: string, i: int, h: int, w: int) {
    && HeadingMatch(line, i, h, w)
    && forall i', h', w' :: HeadingMatch(line, i', h', w') ==>
         i' < i || (i' == i && (h' < h || (h' == h && w' <= w)))
  }

  /** Hashes and a single blank, and nothing after it. */
  ghost predicate BareHeading(line: string, i: int, h: int) {
    && 0 <= i <= 3 && 1 <= h <= 6 && i + h + 1 == |line|
    && (forall k :: 0 <= k < i ==> IsWhitespace(line[k]))
    && (forall k :: i <= k < i + h ==> IsHash(line[k]))
    && IsWhitespace(line[i + h])
  }

  ghost predicate NoMatch(line: string) {
    forall i, h, w :: !HeadingMatch(line, i, h, w)
  }

  ghost predicate Bare(line: string) {
    exists i, h :: BareHeading(line, i, h)
  }

  /** What the expression makes of a line: the group of the match it takes, or nothing. */
  ghost predicate RegexTitle(line: string, title: Option<string>) {
    match title
    case None => NoMatch(line)
    case Some(text) => exists i, h, w :: GreedyHeading(line, i, h, w) && text == line[i + h + w..]
  }

  lemma {:induction false} OneRegexTitle(line: string, a: Option<string>, b: Option<string>)
    requires RegexTitle(line, a) && RegexTitle(line, b)
    ensures a == b
  {
    if a.Some? && b.Some? {
      var i, h, w :| GreedyHeading(line, i, h, w) && a.value == line[i + h + w..];
      var i', h', w' :| GreedyHeading(line, i', h', w') && b.value == line[i' + h' + w'..];
      assert i == i' && h == h' && w == w';
    }
  }

  lemma {:induction false} LeadingIsMaximal(s: string, p: char -> bool, limit: nat)
    ensures var n := Leading(s, p, limit);
      && (forall k :: 0 <= k < n ==> p(s[k]))
      && (n == limit || n == |s| || !p(s[n]))
  {
    if limit > 0 && s != "" && p(s[0]) {
      LeadingIsMaximal(s[1..], p, limit - 1);
      var n := Leading(s, p, limit);
      forall k | 0 <= k < n
        ensures p(s[k])
      {
        assert k > 0 ==> s[k] == s[1..][k - 1];
      }
    }
  }

  /** Where the three runs of the scanner end. */
  ghost predicate Runs(line: string, i: nat, h: nat, w: nat) {
    && i <= 3 && h <= 6 && i + h + w <= |line|
    && (forall k :: 0 <= k < i ==> IsWhitespace(line[k]))
    && (forall k :: i <= k < i + h ==> IsHash(line[k]))
    && (forall k :: i + h <= k < i + h + w ==> IsWhitespace(line[k]))
    && (i == 3 || i == |line| || !IsWhitespace(line[i]))
    && (h == 6 || i + h == |line| || !IsHash(line[i + h]))
    && (i + h + w == |line| || !IsWhitespace(line[i + h + w]))
  }

  lemma {:induction false} LeadingAt(line: string, at: nat, p: char -> bool, limit: nat) returns (n: nat)
    requires at <= |line|
    ensures n == Leading(line[at..], p, limit) && n <= limit && at + n <= |line| && line[at..][n..] == line[at + n..]
    ensures forall k :: at <= k < at + n ==> p(line[k])
    ensures n == limit || at + n == |line| || !p(line[at + n])
  {
    var rest := line[at..];
    n := Leading(rest, p, limit);
    LeadingIsMaximal(rest, p, limit);
    forall k | at <= k < at + n
      ensures p(line[k])
    {
      assert rest[k - at] == line[k];
    }
  }

  lemma {:induction false} TitleAt(line: string, at: nat, w: nat)
    requires 0 < w && at + w <= |line|
    ensures TitleFrom(line[at..], w) == if at + w < |line| then line[at + w..] else line[at + w - 1..]
  {
    assert line[at..][w..] == line[at + w..] && line[at..][w - 1..] == line[at + w - 1..];
  }

  function TitleOf(line: string, i: nat, h: nat, w: nat): Option<string>
    requires i + h + w <= |line|
  {
    if h == 0 || w == 0 then None
    else Some(if i + h + w < |line| then line[i + h + w..] else line[i + h + w - 1..])
  }

  lemma {:induction false} HeadingIs(line: string, i: nat, h: nat, w: nat)
    requires i == Leading(line, IsWhitespace, 3) && h == Leading(line[i..], IsHash, 6)
    requires i + h <= |line| && line[i..][h..] == line[i + h..]
    requires w == Leading(line[i + h..], IsWhitespace, |line[i + h..]|)
    ensures Heading(line, IsWhitespace, IsHash) == TitleOf(line, i, h, w)
  {
    if w > 0 {
      TitleAt(line, i + h, w);
    }
  }

  lemma {:induction false} HeadingRuns(line: string) returns (i: nat, h: nat, w: nat)
    ensures Runs(line, i, h, w)
    ensures Heading(line, IsWhitespace, IsHash) == TitleOf(line, i, h, w)
  {
    i, h, w := ThreeRuns(line);
    HeadingIs(line, i, h, w);
  }

  lemma {:induction false} ThreeRuns(line: string) returns (i: nat, h: nat, w: nat)
    ensures Runs(line, i, h, w)
    ensures i == Leading(line, IsWhitespace, 3) && h == Leading(line[i..], IsHash, 6)
    ensures line[i..][h..] == line[i + h..] && w == Leading(line[i + h..], IsWhitespace, |line[i + h..]|)
  {
    assert line[0..] == line;
    i := LeadingAt(line, 0, IsWhitespace, 3);
    h := LeadingAt(line, i, IsHash, 6);
    w := LeadingAt(line, i + h, IsWhitespace, |line[i + h..]|);
  }

  /** Blanks, hashes, and a blank after them: how a match and a bare heading both begin. */
  ghost predicate Opens(line: string, i: int, h: int) {
    && 0 <= i <= 3 && 1 <= h <= 6 && i + h < |line|
    && (forall k :: 0 <= k < i ==> IsWhitespace(line[k]))
    && (forall k :: i <= k < i + h ==> IsHash(line[k]))
    && IsWhitespace(line[i + h])
  }

  lemma {:induction false} SameIndent(line: string, i: nat, h: nat, w: nat, i': int, h': int)
    requires Runs(line, i, h, w) && Opens(line, i', h')
    ensures i' == i
  {
    assert IsHash(line[i']);
  }

  lemma {:induction false} SameHashes(line: string, i: nat, h: nat, w: nat, h': int)
    requires Runs(line, i, h, w) && Opens(line, i, h')
    ensures h' == h && w > 0
  {
  }

  /** Every match begins with the scanner's first two runs and at most its third. */
  lemma {:induction false} MatchFollowsRuns(line: string, i: nat, h: nat, w: nat, i': int, h': int, w': int)
    requires Runs(line, i, h, w) && HeadingMatch(line, i', h', w')
    ensures i' == i && h' == h && w' <= w
  {
    assert Opens(line, i', h');
    SameIndent(line, i, h, w, i', h');
    SameHashes(line, i, h, w, h');
  }

  lemma {:induction false} NoHeading(line: string, i: nat, h: nat, w: nat)
    requires Runs(line, i, h, w) && (h == 0 || w == 0)
    ensures NoMatch(line) && !Bare(line)
  {
    forall i', h' | Opens(line, i', h')
      ensures false
    {
      SameIndent(line, i, h, w, i', h');
      SameHashes(line, i, h, w, h');
    }
    assert forall i', h', w' :: HeadingMatch(line, i', h', w') ==> Opens(line, i', h');
    assert forall i', h' :: BareHeading(line, i', h') ==> Opens(line, i', h');
  }

  lemma {:induction false} LongestIsGreedy(line: string, i: nat, h: nat, w: nat, taken: nat)
    requires Runs(line, i, h, w) && HeadingMatch(line, i, h, taken)
    requires taken == w || (taken == w - 1 && i + h + w == |line|)
    ensures GreedyHeading(line, i, h, taken)
  {
    forall i', h', w' | HeadingMatch(line, i', h', w')
      ensures i' == i && h' == h && w' <= taken
    {
      MatchFollowsRuns(line, i, h, w, i', h', w');
    }
  }

  lemma {:induction false} MatchIsNotBare(line: string, i: nat, h: nat, w: nat, taken: nat)
    requires Runs(line, i, h, w) && HeadingMatch(line, i, h, taken)
    ensures !Bare(line)
  {
    forall i', h' | BareHeading(line, i', h')
      ensures false
    {
      assert Opens(line, i', h');
      SameIndent(line, i, h, w, i', h');
      SameHashes(line, i, h, w, h');
    }
  }

  /** The line goes on after its blanks. */
  lemma {:induction false} TitledLine(line: string, i: nat, h: nat, w: nat)
    requires Runs(line, i, h, w) && h > 0 && w > 0 && i + h + w < |line|
    ensures RegexTitle(line, Some(line[i + h + w..])) && !Bare(line)
  {
    assert HeadingMatch(line, i, h, w);
    LongestIsGreedy(line, i, h, w, w);
    MatchIsNotBare(line, i, h, w, w);
  }

  /** The line ends with several blanks, and the expression gives the last one to its group. */
  lemma {:induction false} BlankLine(line: string, i: nat, h: nat, w: nat)
    requires Runs(line, i, h, w) && h > 0 && w > 1 && i + h + w == |line|
    ensures RegexTitle(line, Some(line[i + h + w - 1..])) && !Bare(line)
  {
    assert HeadingMatch(line, i, h, w - 1);
    LongestIsGreedy(line, i, h, w, w - 1);
    MatchIsNotBare(line, i, h, w, w - 1);
    assert i + h + (w - 1) == i + h + w - 1;
  }

  lemma {:induction false} BareLine(line: string, i: nat, h: nat)
    requires Runs(line, i, h, 1) && h > 0 && i + h + 1 == |line|
    ensures NoMatch(line) && Bare(line)
  {
    forall i', h', w' | HeadingMatch(line, i', h', w')
      ensures false
    {
      MatchFollowsRuns(line, i, h, 1, i', h', w');
    }
    assert BareHeading(line, i, h);
  }

  lemma {:induction false} TitleMatchesRegex(line: string, i: nat, h: nat, w: nat)
    requires Runs(line, i, h, w)
    ensures RegexTitle(line, TitleOf(line, i, h, w)) <==> !Bare(line)
    ensures Bare(line) ==> NoMatch(line) && line != "" && TitleOf(line, i, h, w) == Some(line[|line| - 1..])
  {
    if h == 0 || w == 0 {
      NoHeading(line, i, h, w);
    } else if i + h + w < |line| {
      TitledLine(line, i, h, w);
    } else if w > 1 {
      BlankLine(line, i, h, w);
    } else {
      BareLine(line, i, h);
    }
  }

  /** On every line the scanner finds the expression's heading, unless the line is nothing but hashes
      and a single blank: then, and only then, the two differ, the scanner taking the blank for the
      title of a heading and the expression finding none. */
  lemma {:induction false} HeadingMatchesRegex(line: string)
    ensures RegexTitle(line, Heading(line, IsWhitespace, IsHash)) <==> !Bare(line)
    ensures Bare(line) ==>
      && NoMatch(line)
      && line != "" && Heading(line, IsWhitespace, IsHash) == Some(line[|line| - 1..])
  {
    var i, h, w := HeadingRuns(line);
    TitleMatchesRegex(line, i, h, w);
  }

  /** A concrete line on which the two differ. */
  lemma {:induction false} BareHeadingDiffers()
    ensures Heading("# ", IsWhitespace, IsHash) == Some(" ")
    ensures NoMatch("# ")
  {
    var unindented := "# "[0..];
    assert unindented == "# " && unindented[1..] == " ";
    assert Runs("# ", 0, 1, 1);
    BareLine("# ", 0, 1);
  }
}
