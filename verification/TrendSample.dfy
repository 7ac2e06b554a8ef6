/** Rows can be written on lines and read back: an encoding that does what is
    asked of a trend file's. */
module TrendSample {
  import opened Basics
  import opened Trend
  import opened TrendText

  // ----- Numbers on a line

  /** Each number in ones, ended by a zero. */
  function Unary(ns: seq<nat>): string
    decreases |ns|, if ns == [] then 0 else ns[0]
  {
    if ns == [] then ""
    else if ns[0] == 0 then "0" + Unary(ns[1..])
    else "1" + Unary([ns[0] - 1] + ns[1..])
  }

  lemma {:induction false} UnaryUnbroken(ns: seq<nat>)
    ensures Unbroken(Unary(ns)) && (ns != [] ==> Unary(ns) != "")
    decreases |ns|, if ns == [] then 0 else ns[0]
  {
    if ns != [] {
      UnaryUnbroken(if ns[0] == 0 then ns[1..] else [ns[0] - 1] + ns[1..]);
    }
  }

  lemma {:induction false} UnaryTellsApart(a: seq<nat>, b: seq<nat>)
    requires Unary(a) == Unary(b)
    ensures a == b
    decreases |a|, if a == [] then 0 else a[0]
  {
    if a != [] && b != [] {
      var x, y := Unary(a), Unary(b);
      assert x[0] == y[0] && x[1..] == y[1..];
      if a[0] == 0 {
        UnaryTellsApart(a[1..], b[1..]);
      } else {
        var c, d := [a[0] - 1] + a[1..], [b[0] - 1] + b[1..];
        UnaryTellsApart(c, d);
        assert c[0] == d[0] && c[1..] == a[1..] && d[1..] == b[1..];
      }
      assert a == [a[0]] + a[1..] && b == [b[0]] + b[1..];
    }
  }

  // ----- Texts as numbers

  /** Each text's characters, counted from one, ended by a zero. */
  function Codes(texts: seq<string>): seq<nat>
    decreases |texts|, if texts == [] then 0 else |texts[0]|
  {
    if texts == [] then []
    else if texts[0] == "" then [0] + Codes(texts[1..])
    else [texts[0][0] as nat + 1] + Codes([texts[0][1..]] + texts[1..])
  }

  lemma {:induction false} CodesTellApart(a: seq<string>, b: seq<string>)
    requires Codes(a) == Codes(b)
    ensures a == b
    decreases |a|, if a == [] then 0 else |a[0]|
  {
    if a != [] && b != [] {
      var x, y := Codes(a), Codes(b);
      assert x[0] == y[0] && x[1..] == y[1..];
      if a[0] == "" {
        CodesTellApart(a[1..], b[1..]);
      } else {
        var c, d := [a[0][1..]] + a[1..], [b[0][1..]] + b[1..];
        CodesTellApart(c, d);
        assert c[0] == d[0] && c[1..] == a[1..] && d[1..] == b[1..];
        assert a[0] == [a[0][0]] + a[0][1..] && b[0] == [b[0][0]] + b[0][1..];
      }
      assert a == [a[0]] + a[1..] && b == [b[0]] + b[1..];
    }
  }

  // ----- Fields as texts

  function OptionText(o: Option<string>): string { if o.None? then "" else "+" + o.value }

  function Ones(n: nat): string { seq(n, i => '1') }

  function IntText(n: int): string { if n < 0 then "-" + Ones(-n) else "+" + Ones(n) }

  function KindText(kind: Kind): string {
    match kind
    case Preset => "p"
    case Missing => "m"
    case Job => "j"
    case Promotion => "o"
    case Foreign(name) => "f" + name
  }

  lemma OptionsDiffer(a: Option<string>, b: Option<string>)
    requires OptionText(a) == OptionText(b)
    ensures a == b
  {
    if a.Some? && b.Some? {
      assert OptionText(a)[1..] == a.value && OptionText(b)[1..] == b.value;
    }
  }

  lemma IntsDiffer(a: int, b: int)
    requires IntText(a) == IntText(b)
    ensures a == b
  {
    assert IntText(a)[0] == IntText(b)[0] && |IntText(a)| == |IntText(b)|;
  }

  lemma KindsDiffer(a: Kind, b: Kind)
    requires KindText(a) == KindText(b)
    ensures a == b
  {
    assert KindText(a)[0] == KindText(b)[0] && KindText(a)[1..] == KindText(b)[1..];
  }

  function Texts(row: Row): seq<string> {
    [row.schema, KindText(row.kind), row.lane, row.repository, IntText(row.runId), IntText(row.runAttempt),
     OptionText(row.preset), OptionText(row.job), OptionText(row.result), OptionText(row.commit),
     OptionText(row.promotion), OptionText(row.assetUrl), row.event, OptionText(row.ref), row.recordedAt, row.kept,
     row.rest]
  }

  lemma SameAt(a: seq<string>, b: seq<string>, k: int)
    requires a == b && 0 <= k < |a|
    ensures a[k] == b[k]
  {
  }

  lemma TextsTellApart(a: Row, b: Row)
    requires Texts(a) == Texts(b)
    ensures a == b
  {
    forall k | 0 <= k < 17 ensures Texts(a)[k] == Texts(b)[k] {
      SameAt(Texts(a), Texts(b), k);
    }
    KindsDiffer(a.kind, b.kind);
    IntsDiffer(a.runId, b.runId);
    IntsDiffer(a.runAttempt, b.runAttempt);
    OptionsDiffer(a.preset, b.preset);
    OptionsDiffer(a.job, b.job);
    OptionsDiffer(a.result, b.result);
    OptionsDiffer(a.commit, b.commit);
    OptionsDiffer(a.promotion, b.promotion);
    OptionsDiffer(a.assetUrl, b.assetUrl);
    OptionsDiffer(a.ref, b.ref);
  }

  // ----- Rows

  function Dump(row: Row): string { Unary(Codes(Texts(row))) }

  /** The row a line holds, if any. */
  ghost function Load(line: string): Option<Row> {
    if exists row :: Dump(row) == line then var row :| Dump(row) == line; Some(row) else None
  }

  lemma DumpTellsApart(a: Row, b: Row)
    requires Dump(a) == Dump(b)
    ensures a == b
  {
    UnaryTellsApart(Codes(Texts(a)), Codes(Texts(b)));
    CodesTellApart(Texts(a), Texts(b));
    TextsTellApart(a, b);
  }

  lemma Dumped(row: Row)
    ensures Dump(row) != "" && Unbroken(Dump(row)) && Load(Dump(row)) == Some(row)
  {
    assert Texts(row) != [] && Codes(Texts(row)) != [];
    UnaryUnbroken(Codes(Texts(row)));
    DumpTellsApart(Load(Dump(row)).value, row);
  }

  /** There are lines that round-trip, so the branch's results are about
      something. */
  lemma SomeCodecIsFaithful()
    ensures exists json: Json :: json.RoundTrips()
    ensures exists codec: Codec :: codec.Faithful()
  {
    var json := Json(row => Dump(row), line => Load(line));
    forall row ensures Load(Dump(row)) == Some(row) && Dump(row) != "" && Unbroken(Dump(row)) {
      Dumped(row);
    }
    assert json.RoundTrips();
    TextIsFaithful(json);
    assert TextCodec(json).Faithful();
  }
}
