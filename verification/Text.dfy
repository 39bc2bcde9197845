/** Searching, trimming and replacing in sequences. The functions are generic so that the same
    definition runs on characters and on the marked-up text of the Markup module. */
module Text {
  import opened Prelude

  /** The Unicode White_Space property. */
  predicate IsWhitespace(c: char) {
    || '\U{0009}' <= c <= '\U{000D}' || c == ' ' || c == '\U{0085}' || c == '\U{00A0}' || c == '\U{1680}'
    || '\U{2000}' <= c <= '\U{200A}' || c == '\U{2028}' || c == '\U{2029}' || c == '\U{202F}'
    || c == '\U{205F}' || c == '\U{3000}'
  }

  predicate IsBlank(s: string) {
    forall i :: 0 <= i < |s| ==> IsWhitespace(s[i])
  }

  function ToLower(c: char): char {
    if 'A' <= c <= 'Z' then 'a' + (c - 'A') else c
  }

  predicate EqualsIgnoringCase(a: string, b: string) {
    |a| == |b| && forall i :: 0 <= i < |a| ==> ToLower(a[i]) == ToLower(b[i])
  }

  /** The 25 code points of that property. */
  lemma {:induction false} WhitespaceIs(c: char)
    ensures IsWhitespace(c) <==>
      (c as int) in {9, 10, 11, 12, 13, 32, 0x85, 0xA0, 0x1680, 0x2000, 0x2001, 0x2002, 0x2003, 0x2004, 0x2005, 0x2006,
                     0x2007, 0x2008, 0x2009, 0x200A, 0x2028, 0x2029, 0x202F, 0x205F, 0x3000}
  {
  }

  /** Two texts are equal ignoring case when they differ only in the case of ASCII letters. */
  lemma {:induction false} IgnoringCaseIs(a: string, b: string)
    ensures EqualsIgnoringCase(a, b) <==>
      && |a| == |b|
      && forall i :: 0 <= i < |a| ==>
           || a[i] == b[i]
           || ('A' <= a[i] <= 'Z' && b[i] as int == a[i] as int + 32)
           || ('A' <= b[i] <= 'Z' && a[i] as int == b[i] as int + 32)
  {
  }

  /** The position of the first occurrence of d in s. */
  function Find<T(==)>(s: seq<T>, d: seq<T>): (r: Option<nat>)
    ensures r.Some? ==> r.value + |d| <= |s|
  {
    if d <= s then Some(0)
    else if s == [] then None
    else
      var rest := Find(s[1..], d);
      if rest.None? then None else Some(rest.value + 1)
  }

  /** d starts at position i of s. */
  predicate OccursAt<T(==)>(s: seq<T>, d: seq<T>, i: int) {
    0 <= i && i + |d| <= |s| && s[i..i + |d|] == d
  }

  lemma {:induction false} Sliced<T>(s: seq<T>, i: nat, j: nat, a: nat, b: nat)
    requires i <= j <= |s| && a <= b <= j - i
    ensures s[i..j][a..b] == s[i + a..i + b]
  {
    forall k | 0 <= k < b - a
      ensures s[i..j][a..b][k] == s[i + a..i + b][k]
    {
      assert s[i..j][a + k] == s[i + a + k];
    }
  }

  lemma {:induction false} OccursNext<T>(s: seq<T>, d: seq<T>, j: int)
    requires s != [] && j > 0
    ensures OccursAt(s, d, j) <==> OccursAt(s[1..], d, j - 1)
  {
  }

  lemma {:induction false} OccursFirst<T>(s: seq<T>, d: seq<T>)
    ensures OccursAt(s, d, 0) <==> d <= s
  {
  }

  lemma {:induction false} FindIsFirst<T>(s: seq<T>, d: seq<T>)
    ensures match Find(s, d)
            case Some(i) => OccursAt(s, d, i) && forall j :: 0 <= j < i ==> !OccursAt(s, d, j)
            case None => forall j :: !OccursAt(s, d, j)
  {
    OccursFirst(s, d);
    if !(d <= s) && s != [] {
      FindIsFirst(s[1..], d);
      var rest := Find(s[1..], d);
      if rest.Some? {
        OccursNext(s, d, rest.value + 1);
      }
      forall j | 0 <= j && (rest.Some? ==> j < rest.value + 1)
        ensures !OccursAt(s, d, j)
      {
        if j > 0 {
          OccursNext(s, d, j);
        }
      }
    }
  }

  datatype Halves<T> = Halves(before: seq<T>, after: seq<T>)

  /** The text before and after the first c. */
  function SplitOnce<T(==)>(s: seq<T>, c: T): (r: Option<Halves<T>>)
    ensures r.Some? ==> s == r.value.before + [c] + r.value.after
  {
    if s == [] then None
    else if s[0] == c then Some(Halves([], s[1..]))
    else
      match SplitOnce(s[1..], c)
      case None => None
      case Some(halves) => Some(Halves([s[0]] + halves.before, halves.after))
  }

  /** Splitting is cutting where the search ends. */
  lemma {:induction false} SplitIsFind<T>(s: seq<T>, c: T)
    ensures match Find(s, [c])
            case None => SplitOnce(s, c) == None
            case Some(i) => i < |s| && SplitOnce(s, c) == Some(Halves(s[..i], s[i + 1..]))
  {
    if s != [] && s[0] != c {
      SplitIsFind(s[1..], c);
      var rest := Find(s[1..], [c]);
      if rest.Some? {
        assert [s[0]] + s[1..][..rest.value] == s[..rest.value + 1];
      }
    }
  }

  /** `str::replace`: every occurrence, left to right, without overlap. */
  function ReplaceAll<T(==)>(s: seq<T>, from: seq<T>, to: seq<T>): seq<T>
    requires from != []
    decreases |s|
  {
    match Find(s, from)
    case None => s
    case Some(i) => s[..i] + to + ReplaceAll(s[i + |from|..], from, to)
  }

  function TrimStart<T>(s: seq<T>, drop: T -> bool): seq<T> {
    if s != [] && drop(s[0]) then TrimStart(s[1..], drop) else s
  }

  function TrimEnd<T>(s: seq<T>, drop: T -> bool): seq<T> {
    if s != [] && drop(s[|s| - 1]) then TrimEnd(s[..|s| - 1], drop) else s
  }

  function Trim<T>(s: seq<T>, drop: T -> bool): seq<T> {
    TrimEnd(TrimStart(s, drop), drop)
  }

  /** m is s without the longest ends that consist of dropped elements. */
  ghost predicate TrimsTo(s: string, m: string, drop: char -> bool) {
    exists i, j :: CutsTo(s, i, j, drop) && m == s[i..j]
  }

  ghost predicate CutsTo(s: string, i: int, j: int, drop: char -> bool) {
    && 0 <= i <= j <= |s|
    && (forall k :: 0 <= k < i ==> drop(s[k]))
    && (forall k :: j <= k < |s| ==> drop(s[k]))
    && (i < j ==> !drop(s[i]) && !drop(s[j - 1]))
  }

  lemma {:induction false} TrimStartCuts(s: string, drop: char -> bool) returns (i: nat)
    ensures i <= |s| && TrimStart(s, drop) == s[i..]
    ensures (forall k :: 0 <= k < i ==> drop(s[k])) && (i < |s| ==> !drop(s[i]))
  {
    i := 0;
    if s != [] && drop(s[0]) {
      i := TrimStartCuts(s[1..], drop);
      assert forall k :: 0 < k <= i ==> s[k] == s[1..][k - 1];
      i := i + 1;
    }
  }

  lemma {:induction false} TrimEndCuts(s: string, drop: char -> bool) returns (j: nat)
    ensures j <= |s| && TrimEnd(s, drop) == s[..j]
    ensures (forall k :: j <= k < |s| ==> drop(s[k])) && (j > 0 ==> !drop(s[j - 1]))
  {
    j := |s|;
    if s != [] && drop(s[|s| - 1]) {
      j := TrimEndCuts(s[..|s| - 1], drop);
      assert forall k :: 0 <= k < |s| - 1 ==> s[k] == s[..|s| - 1][k];
    }
  }

  lemma {:induction false} TrimIsTrimsTo(s: string, drop: char -> bool)
    ensures TrimsTo(s, Trim(s, drop), drop)
  {
    var i := TrimStartCuts(s, drop);
    var rest := s[i..];
    var j := TrimEndCuts(rest, drop);
    assert forall k :: i <= k < |s| ==> s[k] == rest[k - i];
    assert rest[..j] == s[i..i + j];
    assert CutsTo(s, i, i + j, drop);
  }

  lemma {:induction false} OneTrim(s: string, a: string, b: string, drop: char -> bool)
    requires TrimsTo(s, a, drop) && TrimsTo(s, b, drop)
    ensures a == b
  {
    var i, j :| CutsTo(s, i, j, drop) && a == s[i..j];
    var k, l :| CutsTo(s, k, l, drop) && b == s[k..l];
    if i < j || k < l {
      assert i == k && j == l;
    }
  }

  /** Decimal digits. */
  function Decimal(n: nat): (s: string)
    ensures s != [] && forall i :: 0 <= i < |s| ==> '0' <= s[i] <= '9'
  {
    var digit := '0' + (n % 10) as char;
    if n < 10 then [digit] else Decimal(n / 10) + [digit]
  }

  lemma {:induction false} DecimalInjective(a: nat, b: nat)
    requires Decimal(a) == Decimal(b)
    ensures a == b
  {
    var da, db := Decimal(a), Decimal(b);
    assert da[|da| - 1] == '0' + (a % 10) as char;
    assert db[|db| - 1] == '0' + (b % 10) as char;
    assert a % 10 == b % 10;
    if a >= 10 && b >= 10 {
      assert da[..|da| - 1] == Decimal(a / 10);
      assert db[..|db| - 1] == Decimal(b / 10);
      DecimalInjective(a / 10, b / 10);
    }
  }
}
