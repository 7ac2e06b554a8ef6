/** The text of a trend file: one JSON row per line, appended to an existing
    file whose last line may be unfinished. */
module TrendText {
  import opened Basics
  import opened Trend
  import opened TrendProtocol

  /** What ends a line for str.splitlines: the line and paragraph separators
      and the control characters from line feed to carriage return among them. */
  predicate IsBreak(c: char) {
    var n := c as int;
    10 <= n <= 13 || 28 <= n <= 30 || n == 0x85 || n == 0x2028 || n == 0x2029
  }

  predicate Unbroken(line: string) { forall i :: 0 <= i < |line| ==> !IsBreak(line[i]) }

  /** How a row is written on a line, in ASCII with every control character
      escaped, and what a line reads back as; an empty line is no row. */
  datatype Json = Json(dump: Row -> string, load: string -> Option<Row>) {
    ghost predicate RoundTrips() {
      && load("") == None
      && forall row :: load(dump(row)) == Some(row) && dump(row) != "" && Unbroken(dump(row))
    }
  }

  /** The lines `rest`, with one more character before them. */
  function Led(x: char, rest: seq<string>): (lines: seq<string>)
    ensures lines != []
  {
    if IsBreak(x) then [""] + rest
    else if rest == [] then [[x]]
    else [[x] + rest[0]] + rest[1..]
  }

  predicate StartsCrlf(text: string) { |text| > 1 && text[0] == '\r' && text[1] == '\n' }

  /** The text's lines; a carriage return and line feed end one line together. */
  function SplitLines(text: string): (lines: seq<string>)
    ensures lines == [] <==> text == ""
  {
    if text == "" then []
    else if StartsCrlf(text) then [""] + SplitLines(text[2..])
    else Led(text[0], SplitLines(text[1..]))
  }

  predicate EndsLine(text: string) { text == "" || text[|text| - 1] == '\n' }

  lemma {:induction false} SplitConcat(a: string, b: string)
    requires EndsLine(a)
    ensures SplitLines(a + b) == SplitLines(a) + SplitLines(b)
    decreases |a|
  {
    var both := a + b;
    if a == "" {
      assert both == b;
    } else if StartsCrlf(a) {
      assert both[0] == a[0] && both[1] == a[1] && both[2..] == a[2..] + b;
      SplitConcat(a[2..], b);
      assert [""] + (SplitLines(a[2..]) + SplitLines(b)) == [""] + SplitLines(a[2..]) + SplitLines(b);
    } else {
      assert both[0] == a[0] && both[1..] == a[1..] + b && !StartsCrlf(both);
      SplitConcat(a[1..], b);
      LedConcat(a[0], SplitLines(a[1..]), SplitLines(b));
    }
  }

  lemma LedConcat(x: char, r: seq<string>, q: seq<string>)
    requires IsBreak(x) || r != []
    ensures Led(x, r + q) == Led(x, r) + q
  {
    if r != [] {
      assert (r + q)[1..] == r[1..] + q;
    }
  }

  lemma LedAlone(x: char)
    ensures Led(x, [""]) == if IsBreak(x) then Led(x, []) + [""] else Led(x, [])
  {
    assert [""][1..] == [] && [x] + "" == [x];
  }

  lemma LineFeed()
    ensures SplitLines("\n") == [""] && SplitLines("\r\n") == [""]
  {
    assert "\n"[1..] == "" && "\r\n"[2..] == "";
  }

  lemma {:induction false} SplitOne(line: string)
    requires line != "" && Unbroken(line)
    ensures SplitLines(line + "\n") == [line]
    decreases |line|
  {
    var text := line + "\n";
    assert text[0] == line[0] && text[1..] == line[1..] + "\n" && !StartsCrlf(text);
    LineFeed();
    if |line| == 1 {
      assert text[1..] == "\n";
      assert line == [line[0]] + "";
    } else {
      SplitOne(line[1..]);
      assert line == [line[0]] + line[1..];
    }
  }

  /** Ending an unfinished last line changes no line, or adds an empty one after
      some other line end. */
  lemma {:induction false} SplitTerminated(text: string)
    requires text != "" && !EndsLine(text)
    ensures SplitLines(text + "\n") in {SplitLines(text), SplitLines(text) + [""]}
    decreases |text|
  {
    var ended := text + "\n";
    LineFeed();
    if |text| == 1 {
      assert text[1..] == "" && ended[1..] == "\n";
      if text[0] == '\r' {
        assert ended == "\r\n";
      } else {
        assert SplitLines(ended) == Led(text[0], [""]) && SplitLines(text) == Led(text[0], []);
        LedAlone(text[0]);
      }
    } else if StartsCrlf(text) {
      assert ended[2..] == text[2..] + "\n";
      SplitTerminated(text[2..]);
      assert [""] + (SplitLines(text[2..]) + [""]) == [""] + SplitLines(text[2..]) + [""];
    } else {
      assert ended[0] == text[0] && ended[1..] == text[1..] + "\n" && !StartsCrlf(ended);
      SplitTerminated(text[1..]);
      LedConcat(text[0], SplitLines(text[1..]), [""]);
    }
  }

  /** The rows on the lines that parse. */
  function Loaded(json: Json, lines: seq<string>): seq<Row> {
    if lines == [] then [] else
    (match json.load(lines[0]) case Some(row) => [row] case None => []) + Loaded(json, lines[1..])
  }

  function RowsOf(json: Json, text: string): seq<Row> { Loaded(json, SplitLines(text)) }

  lemma {:induction false} LoadedConcat(json: Json, a: seq<string>, b: seq<string>)
    ensures Loaded(json, a + b) == Loaded(json, a) + Loaded(json, b)
    decreases |a|
  {
    if a == [] {
      assert a + b == b;
    } else {
      assert (a + b)[1..] == a[1..] + b;
      LoadedConcat(json, a[1..], b);
    }
  }

  function Terminate(text: string): string { if EndsLine(text) then text else text + "\n" }

  /** The file with one row more. */
  function AppendRow(json: Json, text: string, row: Row): string {
    Terminate(text) + (json.dump(row) + "\n")
  }

  /** Ending the last line reads as the same rows. */
  lemma TerminatedReads(json: Json, text: string)
    requires json.RoundTrips()
    ensures RowsOf(json, Terminate(text)) == RowsOf(json, text)
  {
    if !EndsLine(text) {
      SplitTerminated(text);
      LoadedConcat(json, SplitLines(text), [""]);
      assert Loaded(json, [""]) == Loaded(json, []);
    }
  }

  lemma AppendReads(json: Json, text: string, row: Row)
    requires json.RoundTrips()
    ensures RowsOf(json, AppendRow(json, text, row)) == RowsOf(json, text) + [row]
    ensures text <= AppendRow(json, text, row) && EndsLine(AppendRow(json, text, row))
  {
    var line := json.dump(row) + "\n";
    var before := Terminate(text);
    TerminatedReads(json, text);
    SplitConcat(before, line);
    SplitOne(json.dump(row));
    LoadedConcat(json, SplitLines(before), SplitLines(line));
    assert SplitLines(line) == [json.dump(row)];
    assert Loaded(json, [json.dump(row)]) == [row] + Loaded(json, []);
    assert AppendRow(json, text, row)[..|text|] == text;
  }

  function TextCodec(json: Json): Codec {
    Codec(text => RowsOf(json, text), (text, row) => AppendRow(json, text, row))
  }

  /** Trend files are what the protocol asks of them. */
  lemma TextIsFaithful(json: Json)
    requires json.RoundTrips()
    ensures TextCodec(json).Faithful()
  {
    forall text, row
      ensures RowsOf(json, AppendRow(json, text, row)) == RowsOf(json, text) + [row]
      ensures text <= AppendRow(json, text, row)
    {
      AppendReads(json, text, row);
    }
  }

  function LinesFor(json: Json, rows: seq<Row>): string
    decreases |rows|
  {
    if rows == [] then "" else LinesFor(json, rows[..|rows| - 1]) + (json.dump(rows[|rows| - 1]) + "\n")
  }

  lemma Associate(a: string, b: string, c: string)
    ensures (a + b) + c == a + (b + c)
  {
  }

  /** The writer ends the last line once and joins all its rows; that is
      appending them one by one. */
  lemma {:induction false} JoinedIsAppended(json: Json, existing: string, rows: seq<Row>)
    requires json.RoundTrips() && rows != []
    ensures var text := WithRows(TextCodec(json), existing, rows);
            text == Terminate(existing) + LinesFor(json, rows) && EndsLine(text)
    decreases |rows|
  {
    var n := |rows| - 1;
    var before, line := WithRows(TextCodec(json), existing, rows[..n]), json.dump(rows[n]) + "\n";
    var lines := LinesFor(json, rows[..n]);
    assert LinesFor(json, rows) == lines + line;
    assert WithRows(TextCodec(json), existing, rows) == AppendRow(json, before, rows[n]);
    if n > 0 {
      JoinedIsAppended(json, existing, rows[..n]);
      Associate(Terminate(existing), lines, line);
    } else {
      assert lines == "" && lines + line == line;
    }
  }

  method FileContents(json: Json, existing: string, rows: seq<Row>) returns (text: string)
    requires json.RoundTrips() && rows != []
    ensures text == WithRows(TextCodec(json), existing, rows)
  {
    text := existing;
    if text != "" && text[|text| - 1] != '\n' {
      text := text + "\n";
    }
    for k := 0 to |rows|
      invariant text == Terminate(existing) + LinesFor(json, rows[..k])
    {
      assert rows[..k + 1][..k] == rows[..k];
      text := text + (json.dump(rows[k]) + "\n");
    }
    assert rows[..|rows|] == rows;
    JoinedIsAppended(json, existing, rows);
  }
}
