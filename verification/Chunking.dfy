/** Splitting a text into parts of bounded size, preferably after a newline. */
module Chunking {
  import opened Prelude

  // ---------- The rule ----------

  /** n is the length of the first part of a text that does not fit: just after the last newline of
      the window, if that is past the window's first position, and otherwise the whole window. */
  ghost predicate IsCut(text: string, size: nat, n: nat) {
    && 0 < n <= size < |text|
    && if HasBreak(text, size)
       then n > 1 && text[n - 1] == '\n' && forall p :: n <= p < size ==> text[p] != '\n'
       else n == size
  }

  ghost predicate HasBreak(text: string, size: nat)
    requires size <= |text|
  {
    exists p :: 1 <= p < size && text[p] == '\n'
  }

  /** The parts follow the rule from the first to the last. */
  ghost predicate WellChunked(text: string, size: nat, chunks: seq<string>) {
    if |text| <= size then chunks == [text]
    else
      && chunks != []
      && chunks[0] <= text
      && IsCut(text, size, |chunks[0]|)
      && WellChunked(text[|chunks[0]|..], size, chunks[1..])
  }

  function Concat(parts: seq<string>): string {
    if parts == [] then "" else parts[0] + Concat(parts[1..])
  }

  ghost function CutLength(text: string, size: nat, n: nat): (r: nat)
    requires 0 < n <= size < |text|
    requires forall p :: n <= p < size ==> text[p] != '\n'
    ensures IsCut(text, size, r)
  {
    if n == 1 then size
    else if text[n - 1] == '\n' then n
    else CutLength(text, size, n - 1)
  }

  ghost function Chunks(text: string, size: nat): (chunks: seq<string>)
    requires size > 0
    ensures WellChunked(text, size, chunks)
    decreases |text|
  {
    if |text| <= size then [text]
    else
      var n := CutLength(text, size, size);
      [text[..n]] + Chunks(text[n..], size)
  }

  // ---------- The program ----------

  /** The last newline of text[start..end], scanning backwards. */
  method LastNewline(text: string, start: nat, end: nat) returns (split: Option<nat>)
    requires start <= end <= |text|
    ensures split.Some? ==> start <= split.value < end && text[split.value] == '\n'
    ensures forall p :: (if split.Some? then split.value + 1 else start) <= p < end ==> text[p] != '\n'
  {
    var idx := end;
    while idx > start
      invariant start <= idx <= end
      invariant forall p :: idx <= p < end ==> text[p] != '\n'
    {
      idx := idx - 1;
      if text[idx] == '\n' {
        return Some(idx);
      }
    }
    return None;
  }

  /** Where the part that begins at `start` ends. */
  method ChunkEnd(text: string, start: nat, size: nat) returns (end: nat)
    requires start < |text| && size > 0
    ensures start < end <= |text|
    ensures |text| - start <= size ==> end == |text|
    ensures |text| - start > size ==> IsCut(text[start..], size, end - start)
  {
    end := Min(start + size, |text|);
    if end < |text| {
      var split := LastNewline(text, start, end);
      ghost var rest := text[start..];
      assert forall p :: 0 <= p < |rest| ==> rest[p] == text[start + p];
      if split.Some? && split.value > start {
        end := split.value + 1;
        assert rest[split.value - start] == '\n';
      }
    }
  }

  method ChunkText(text: string, size: nat) returns (chunks: seq<string>)
    requires size > 0
    ensures WellChunked(text, size, chunks)
  {
    if |text| <= size {
      return [text];
    }
    chunks := [];
    var start := 0;
    assert text[0..] == text && forall more :: chunks + more == more;
    while start < |text|
      invariant start <= |text|
      invariant start < |text| ==>
        forall more :: WellChunked(text[start..], size, more) ==> WellChunked(text, size, chunks + more)
      invariant start == |text| ==> WellChunked(text, size, chunks)
      decreases |text| - start
    {
      var end := ChunkEnd(text, start, size);
      ExtendChunks(text, size, chunks, start, end);
      chunks := chunks + [text[start..end]];
      start := end;
    }
  }

  lemma {:induction false} ExtendChunks(text: string, size: nat, chunks: seq<string>, start: nat, end: nat)
    requires start < end <= |text|
    requires |text| - start <= size ==> end == |text|
    requires |text| - start > size ==> IsCut(text[start..], size, end - start)
    requires forall more :: WellChunked(text[start..], size, more) ==> WellChunked(text, size, chunks + more)
    ensures |text| - start <= size ==> WellChunked(text, size, chunks + [text[start..end]])
    ensures |text| - start > size ==> end < |text| && forall more ::
      WellChunked(text[end..], size, more) ==> WellChunked(text, size, chunks + [text[start..end]] + more)
  {
    var rest, chunk := text[start..], text[start..end];
    if |rest| <= size {
      assert rest == chunk;
      assert WellChunked(rest, size, [chunk]);
    } else {
      forall more | WellChunked(text[end..], size, more)
        ensures WellChunked(text, size, chunks + [chunk] + more)
      {
        assert chunk == rest[..end - start] && rest[end - start..] == text[end..];
        assert ([chunk] + more)[1..] == more;
        assert WellChunked(rest, size, [chunk] + more);
        assert chunks + ([chunk] + more) == chunks + [chunk] + more;
      }
    }
  }

  // ---------- What the rule gives ----------

  /** Nothing is lost, added or moved. */
  lemma {:induction false} ChunksConcatenate(text: string, size: nat, chunks: seq<string>)
    requires WellChunked(text, size, chunks)
    ensures Concat(chunks) == text
    decreases |chunks|
  {
    if |text| <= size {
      assert chunks[1..] == [];
    } else {
      ChunksConcatenate(text[|chunks[0]|..], size, chunks[1..]);
      assert text == chunks[0] + text[|chunks[0]|..];
    }
  }

  lemma {:induction false} ChunksAreNotEmpty(text: string, size: nat, chunks: seq<string>, i: nat)
    requires WellChunked(text, size, chunks) && text != "" && i < |chunks|
    ensures chunks[i] != ""
    decreases |chunks|
  {
    if |text| > size && i > 0 {
      ChunksAreNotEmpty(text[|chunks[0]|..], size, chunks[1..], i - 1);
    }
  }

  lemma {:induction false} ChunksFit(text: string, size: nat, chunks: seq<string>, i: nat)
    requires WellChunked(text, size, chunks) && i < |chunks|
    ensures |chunks[i]| <= size
    decreases |chunks|
  {
    if |text| > size && i > 0 {
      ChunksFit(text[|chunks[0]|..], size, chunks[1..], i - 1);
    }
  }

  /** The text from which part i was cut. */
  ghost function Remaining(text: string, chunks: seq<string>, i: nat): string
    requires i <= |chunks|
  {
    if i == 0 then text
    else if |chunks[0]| <= |text| then Remaining(text[|chunks[0]|..], chunks[1..], i - 1)
    else ""
  }

  lemma {:induction false} RemainingIsSuffix(text: string, chunks: seq<string>, i: nat)
    requires i <= |chunks| && |Concat(chunks[..i])| <= |text|
    ensures Remaining(text, chunks, i) == text[|Concat(chunks[..i])|..]
  {
    if i == 0 {
      assert chunks[..0] == [];
    } else {
      var n := |chunks[0]|;
      assert chunks[..i][1..] == chunks[1..][..i - 1];
      RemainingIsSuffix(text[n..], chunks[1..], i - 1);
      var at := |Concat(chunks[1..][..i - 1])|;
      assert text[n..][at..] == text[n + at..];
    }
  }

  /** Every part but the last obeys the cutting rule at its place in the text; the last is the rest. */
  lemma {:induction false} EveryChunkIsCut(text: string, size: nat, chunks: seq<string>, i: nat)
    requires WellChunked(text, size, chunks) && i < |chunks|
    ensures var rest := Remaining(text, chunks, i);
      if i + 1 < |chunks| then IsCut(rest, size, |chunks[i]|) && chunks[i] <= rest
      else chunks[i] == rest && |rest| <= size
    decreases |chunks|
  {
    if i > 0 {
      EveryChunkIsCut(text[|chunks[0]|..], size, chunks[1..], i - 1);
    }
  }

  /** The rule determines the parts. */
  lemma {:induction false} ChunkingIsUnique(text: string, size: nat, a: seq<string>, b: seq<string>)
    requires WellChunked(text, size, a) && WellChunked(text, size, b)
    ensures a == b
    decreases |a|
  {
    if |text| > size {
      assert HasBreak(text, size) || |a[0]| == |b[0]| == size;
      assert a[0] == text[..|a[0]|] && b[0] == text[..|b[0]|];
      ChunkingIsUnique(text[|a[0]|..], size, a[1..], b[1..]);
    }
  }
}
