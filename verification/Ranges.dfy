/** The export as bytes: universal newlines, lines, and newline-aligned
    ranges. Bytes stand for the decoded text: in UTF-8 no byte of a longer
    character is a carriage return or a line feed, so both are found alike. */
module Ranges {
  import opened Basics
  import opened Values

  /** Universal newlines, as a text-mode read translates them. */
  function Universal(text: Bytes): Bytes {
    if text == [] then []
    else if text[0] != CR then [text[0]] + Universal(text[1..])
    else if |text| > 1 && text[1] == LF then [LF] + Universal(text[2..])
    else [LF] + Universal(text[1..])
  }

  /** text.replace("\r\n", "\n") */
  function CollapseCrlf(text: Bytes): Bytes {
    if text == [] then []
    else if |text| > 1 && text[0] == CR && text[1] == LF then [LF] + CollapseCrlf(text[2..])
    else [text[0]] + CollapseCrlf(text[1..])
  }

  /** text.replace("\r", "\n") */
  function ReplaceCr(text: Bytes): Bytes {
    if text == [] then []
    else [if text[0] == CR then LF else text[0]] + ReplaceCr(text[1..])
  }

  /** A worker's two replacements are the reader's translation. */
  lemma {:induction false} TwoReplacements(text: Bytes)
    ensures ReplaceCr(CollapseCrlf(text)) == Universal(text)
    decreases |text|
  {
    if text == [] {
    } else if |text| > 1 && text[0] == CR && text[1] == LF {
      TwoReplacements(text[2..]);
      assert ReplaceCr([LF] + CollapseCrlf(text[2..])) == [LF] + ReplaceCr(CollapseCrlf(text[2..]));
    } else {
      TwoReplacements(text[1..]);
      var rest := CollapseCrlf(text[1..]);
      assert ([text[0]] + rest)[1..] == rest;
    }
  }

  lemma {:induction false} UniversalWithoutCr(text: Bytes)
    requires CR !in text
    ensures Universal(text) == text
    decreases |text|
  {
    if text != [] {
      UniversalWithoutCr(text[1..]);
    }
  }

  /** Cut just after a line feed, no carriage return is parted from its own. */
  lemma {:induction false} UniversalCut(a: Bytes, b: Bytes)
    requires a == [] || a[|a| - 1] == LF
    ensures Universal(a + b) == Universal(a) + Universal(b)
    decreases |a|
  {
    if a == [] {
      assert a + b == b;
    } else {
      var step := if |a| > 1 && a[0] == CR && a[1] == LF then 2 else 1;
      UniversalCut(a[step..], b);
      FirstTranslated(a, step);
      CutFirst(a, b, step);
      Regrouped([if a[0] == CR then LF else a[0]], Universal(a[step..]), Universal(b));
    }
  }

  lemma CutFirst(a: Bytes, b: Bytes, step: nat)
    requires a != [] && a[|a| - 1] == LF && step == if |a| > 1 && a[0] == CR && a[1] == LF then 2 else 1
    ensures Universal(a + b) == [if a[0] == CR then LF else a[0]] + Universal(a[step..] + b)
  {
    assert (a + b)[step..] == a[step..] + b;
    FirstTranslated(a + b, step);
  }

  lemma Regrouped<T>(a: seq<T>, b: seq<T>, c: seq<T>)
    ensures a + (b + c) == a + b + c
  {
  }

  lemma FirstTranslated(text: Bytes, step: nat)
    requires text != [] && step == if |text| > 1 && text[0] == CR && text[1] == LF then 2 else 1
    ensures Universal(text) == [if text[0] == CR then LF else text[0]] + Universal(text[step..])
  {
  }

  lemma {:induction false} UniversalEndsLine(a: Bytes)
    requires a != [] && a[|a| - 1] == LF
    ensures Universal(a) != [] && Universal(a)[|Universal(a)| - 1] == LF
    decreases |a|
  {
    var step := if |a| > 1 && a[0] == CR && a[1] == LF then 2 else 1;
    if step < |a| {
      UniversalEndsLine(a[step..]);
    }
  }

  /** The first line feed at or after `from`, or the end of the text. */
  function Find(text: Bytes, from: nat): (k: nat)
    requires from <= |text|
    ensures from <= k <= |text| && (k < |text| ==> text[k] == LF)
    ensures forall j :: from <= j < k ==> text[j] != LF
    decreases |text| - from
  {
    if from == |text| || text[from] == LF then from else Find(text, from + 1)
  }

  /** The lines `rest`, with one more byte before them. */
  function Led(x: byte, rest: seq<Bytes>): (lines: seq<Bytes>)
    ensures lines != []
  {
    if x == LF || rest == [] then [[x]] + rest else [[x] + rest[0]] + rest[1..]
  }

  /** The text's lines, line feed included. */
  function Lines(text: Bytes): (lines: seq<Bytes>)
    ensures lines == [] <==> text == []
  {
    if text == [] then [] else Led(text[0], Lines(text[1..]))
  }

  lemma {:induction false} FirstLine(text: Bytes, k: nat)
    requires k < |text| && text[k] == LF && LF !in text[..k]
    ensures Lines(text) == [text[..k + 1]] + Lines(text[k + 1..])
    decreases k
  {
    if k == 0 {
      assert text[..1] == [LF];
    } else {
      assert text[..k][0] == text[0];
      assert text[1..][..k - 1] == text[..k][1..];
      FirstLine(text[1..], k - 1);
      assert text[1..][k..] == text[k + 1..];
      assert [text[0]] + text[1..][..k] == text[..k + 1];
    }
  }

  lemma {:induction false} LastLine(text: Bytes)
    requires text != [] && LF !in text
    ensures Lines(text) == [text]
    decreases |text|
  {
    if |text| == 1 {
      assert text == [text[0]];
    } else {
      LastLine(text[1..]);
      assert [text[0]] + text[1..] == text;
    }
  }

  function Joined(parts: seq<Bytes>): Bytes {
    if parts == [] then [] else parts[0] + Joined(parts[1..])
  }

  ghost predicate Terminated(line: Bytes) { line != [] && line[|line| - 1] == LF }

  ghost predicate OneLine(line: Bytes) { line != [] && LF !in line[..|line| - 1] }

  /** The lines are the text, cut after every line feed and nowhere else. */
  lemma {:induction false} LinesCut(text: Bytes)
    ensures Joined(Lines(text)) == text
    ensures forall i :: 0 <= i < |Lines(text)| ==> OneLine(Lines(text)[i])
    ensures forall i :: 0 <= i < |Lines(text)| - 1 ==> Terminated(Lines(text)[i])
    decreases |text|
  {
    if text != [] {
      LinesCut(text[1..]);
      LedCut(text[0], Lines(text[1..]));
      assert [text[0]] + text[1..] == text;
    }
  }

  lemma LedCut(x: byte, rest: seq<Bytes>)
    requires forall i :: 0 <= i < |rest| ==> OneLine(rest[i])
    requires forall i :: 0 <= i < |rest| - 1 ==> Terminated(rest[i])
    ensures Joined(Led(x, rest)) == [x] + Joined(rest)
    ensures forall i :: 0 <= i < |Led(x, rest)| ==> OneLine(Led(x, rest)[i])
    ensures forall i :: 0 <= i < |Led(x, rest)| - 1 ==> Terminated(Led(x, rest)[i])
  {
    if x == LF || rest == [] {
      assert ([[x]] + rest)[1..] == rest;
    } else {
      LongerFirst(x, rest);
      LongerJoined(x, rest);
    }
  }

  lemma LongerFirst(x: byte, rest: seq<Bytes>)
    requires rest != [] && x != LF
    ensures OneLine(rest[0]) ==> OneLine([x] + rest[0])
    ensures Terminated(rest[0]) ==> Terminated([x] + rest[0])
  {
    var first := [x] + rest[0];
    if OneLine(rest[0]) {
      assert first[..|first| - 1] == [x] + rest[0][..|rest[0]| - 1];
    }
  }

  lemma LongerJoined(x: byte, rest: seq<Bytes>)
    requires rest != []
    ensures Joined([[x] + rest[0]] + rest[1..]) == [x] + Joined(rest)
  {
    assert ([[x] + rest[0]] + rest[1..])[1..] == rest[1..];
    Regrouped([x], rest[0], Joined(rest[1..]));
  }

  lemma LedConcat(x: byte, r: seq<Bytes>, q: seq<Bytes>)
    requires x == LF || r != []
    ensures Led(x, r + q) == Led(x, r) + q
  {
    if r != [] {
      assert (r + q)[1..] == r[1..] + q;
    }
  }

  lemma {:induction false} LinesConcat(a: Bytes, b: Bytes)
    requires a == [] || a[|a| - 1] == LF
    ensures Lines(a + b) == Lines(a) + Lines(b)
    decreases |a|
  {
    if a == [] {
      assert a + b == b;
    } else {
      assert (a + b)[1..] == a[1..] + b && (a + b)[0] == a[0];
      LinesConcat(a[1..], b);
      LedConcat(a[0], Lines(a[1..]), Lines(b));
    }
  }

  /** The lines a text-mode read of `content` yields. */
  function TextRead(content: Bytes): seq<Bytes> { Lines(Universal(content)) }

  lemma TextReadConcat(a: Bytes, b: Bytes)
    requires a == [] || a[|a| - 1] == LF
    ensures TextRead(a + b) == TextRead(a) + TextRead(b)
  {
    UniversalCut(a, b);
    if a != [] {
      UniversalEndsLine(a);
    }
    LinesConcat(Universal(a), Universal(b));
  }

  lemma NextLine(text: Bytes, start: nat)
    requires start < |text|
    ensures var end := Find(text, start);
            Lines(text[start..]) ==
            if end == |text| then [text[start..]] else [text[start..end + 1]] + Lines(text[end + 1..])
  {
    var end, rest := Find(text, start), text[start..];
    assert forall k :: 0 <= k < end - start ==> rest[k] == text[start + k];
    if end == |text| {
      LastLine(rest);
    } else {
      FirstLine(rest, end - start);
      assert rest[..end - start + 1] == text[start..end + 1];
      assert rest[end - start + 1..] == text[end + 1..];
    }
  }

  /** What is left of the lines, once `lines` are taken. */
  lemma LineTaken(text: Bytes, start: nat, lines: seq<Bytes>)
    requires start < |text| && lines + Lines(text[start..]) == Lines(text)
    ensures var end := Find(text, start);
            if end == |text| then lines + [text[start..]] == Lines(text)
            else lines + [text[start..end + 1]] + Lines(text[end + 1..]) == Lines(text)
  {
    var end := Find(text, start);
    NextLine(text, start);
    if end < |text| {
      Regrouped(lines, [text[start..end + 1]], Lines(text[end + 1..]));
    }
  }

  method TextLines(text: Bytes) returns (lines: seq<Bytes>)
    ensures lines == Lines(text)
  {
    lines := [];
    var start := 0;
    assert text[0..] == text;
    while true
      invariant start <= |text|
      invariant lines + Lines(text[start..]) == Lines(text)
      decreases |text| - start
    {
      if start == |text| {
        return;
      }
      LineTaken(text, start, lines);
      var end := Find(text, start);
      if end == |text| {
        lines := lines + [text[start..]];
        return;
      }
      lines := lines + [text[start..end + 1]];
      start := end + 1;
    }
  }

  // ----- Ranges

  datatype Range = Range(start: nat, end: Option<nat>)

  /** Consecutive ranges of `content`, in order: together they cover it, each
      but the last ends just after a line feed, and the last is open. */
  ghost predicate Cuts(content: Bytes, ranges: seq<Range>) {
    && |ranges| > 0
    && ranges[0].start == 0
    && ranges[|ranges| - 1].end.None?
    && ranges[|ranges| - 1].start <= |content|
    && forall i :: 0 <= i < |ranges| - 1 ==> Closes(content, ranges[i], ranges[i + 1])
  }

  ghost predicate Closes(content: Bytes, r: Range, next: Range) {
    r.end == Some(next.start) && r.start < next.start <= |content| && content[next.start - 1] == LF
  }

  function RangeEnd(content: Bytes, r: Range): nat {
    if r.end.None? then |content| else r.end.value
  }

  ghost predicate Fits(content: Bytes, r: Range, chunk: nat) {
    r.start <= RangeEnd(content, r) <= |content| && Chunked(content, r, chunk)
  }

  /** Every closed range is longer than `chunk` by no more than a line. */
  ghost predicate Chunked(content: Bytes, r: Range, chunk: nat)
    requires r.start <= RangeEnd(content, r) <= |content|
  {
    r.end.Some? ==> r.start + chunk < r.end.value && LF !in content[r.start + chunk..r.end.value - 1]
  }

  method CutRanges(content: Bytes, chunk: nat) returns (ranges: seq<Range>)
    ensures Cuts(content, ranges)
    ensures forall i :: 0 <= i < |ranges| ==> Fits(content, ranges[i], chunk)
  {
    ranges := [];
    var start := 0;
    while true
      invariant start <= |content|
      invariant CutSoFar(content, ranges, start)
      invariant forall i :: 0 <= i < |ranges| ==> Fits(content, ranges[i], chunk)
      decreases |content| - start
    {
      // The line read from `start + chunk` on; past the end it is empty.
      var newline := if start + chunk > |content| then |content| else Find(content, start + chunk);
      if newline == |content| {
        CutLast(content, ranges, start);
        ranges := ranges + [Range(start, None)];
        return;
      }
      CutMore(content, ranges, start, newline + 1);
      ranges := ranges + [Range(start, Some(newline + 1))];
      start := newline + 1;
    }
  }

  /** Closed ranges up to `start`. */
  ghost predicate CutSoFar(content: Bytes, ranges: seq<Range>, start: nat) {
    && (|ranges| == 0 ==> start == 0)
    && (|ranges| > 0 ==> ranges[0].start == 0 && Closes(content, ranges[|ranges| - 1], Range(start, None)))
    && forall i :: 0 <= i < |ranges| - 1 ==> Closes(content, ranges[i], ranges[i + 1])
  }

  lemma CutMore(content: Bytes, ranges: seq<Range>, start: nat, next: nat)
    requires CutSoFar(content, ranges, start) && start < next <= |content| && content[next - 1] == LF
    ensures CutSoFar(content, ranges + [Range(start, Some(next))], next)
  {
  }

  lemma CutLast(content: Bytes, ranges: seq<Range>, start: nat)
    requires CutSoFar(content, ranges, start) && start <= |content|
    ensures Cuts(content, ranges + [Range(start, None)])
  {
  }

  function RangeLines(content: Bytes, r: Range): seq<Bytes>
    requires r.start <= RangeEnd(content, r) <= |content|
  {
    TextRead(content[r.start..RangeEnd(content, r)])
  }

  lemma CutsInBounds(content: Bytes, ranges: seq<Range>, i: nat)
    requires Cuts(content, ranges) && i < |ranges|
    ensures ranges[i].start <= RangeEnd(content, ranges[i]) <= |content|
  {
    if i < |ranges| - 1 {
      assert Closes(content, ranges[i], ranges[i + 1]);
    }
  }

  /** The lines of the first `n` ranges. */
  ghost function LinesBefore(content: Bytes, ranges: seq<Range>, n: nat): seq<Bytes>
    requires Cuts(content, ranges) && n <= |ranges|
  {
    if n == 0 then [] else
    CutsInBounds(content, ranges, n - 1);
    LinesBefore(content, ranges, n - 1) + RangeLines(content, ranges[n - 1])
  }

  lemma StartsAligned(content: Bytes, ranges: seq<Range>, n: nat)
    requires Cuts(content, ranges) && n < |ranges|
    ensures ranges[n].start <= |content|
    ensures content[..ranges[n].start] == [] || content[ranges[n].start - 1] == LF
  {
    CutsInBounds(content, ranges, n);
    if n > 0 {
      assert Closes(content, ranges[n - 1], ranges[n]);
    }
  }

  lemma {:induction false} LinesUpTo(content: Bytes, ranges: seq<Range>, n: nat)
    requires Cuts(content, ranges) && n < |ranges|
    ensures ranges[n].start <= |content|
    ensures LinesBefore(content, ranges, n) == TextRead(content[..ranges[n].start])
    decreases n
  {
    StartsAligned(content, ranges, n);
    if n > 0 {
      LinesUpTo(content, ranges, n - 1);
      StartsAligned(content, ranges, n - 1);
      assert Closes(content, ranges[n - 1], ranges[n]);
      var a, b := ranges[n - 1].start, ranges[n].start;
      assert content[..b] == content[..a] + content[a..b];
      TextReadConcat(content[..a], content[a..b]);
    }
  }

  /** Reading range by range reads the file. */
  lemma RangesReadAll(content: Bytes, ranges: seq<Range>)
    requires Cuts(content, ranges)
    ensures LinesBefore(content, ranges, |ranges|) == TextRead(content)
  {
    var last := |ranges| - 1;
    LinesUpTo(content, ranges, last);
    StartsAligned(content, ranges, last);
    ReadSplits(content, ranges[last].start);
  }

  lemma ReadSplits(content: Bytes, start: nat)
    requires start <= |content| && (start == 0 || content[start - 1] == LF)
    ensures TextRead(content) == TextRead(content[..start]) + TextRead(content[start..|content|])
  {
    assert content == content[..start] + content[start..|content|];
    TextReadConcat(content[..start], content[start..|content|]);
  }
}
