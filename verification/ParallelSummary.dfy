/** The parallel summarizer: workers batch newline-aligned ranges, and one
    process replays the batches in order, falling back to the serial reader
    wherever a range cannot be taken. */
module ParallelSummary {
  import opened Basics
  import opened Values
  import opened Evidence
  import opened Ranges
  import opened Summarizer
  import I = Items
  import opened ItemTypes = Items

  /** A worker's results, grown row by row. */
  class Collector {
    var items: seq<Item>
    var kind: Option<Kind>
    var blob: Bytes
    var count: nat
    var first: int
    var last: int
    var accepted: int

    function OpenRun(): Option<Run>
      reads this
    {
      if kind.None? then None
      else if kind.value.Shares? then Some(ShareRows(count, blob, first, last, accepted))
      else Some(RowRun(kind.value, count, blob))
    }

    function View(): Batch
      reads this
    {
      Batch(items, OpenRun())
    }

    constructor ()
      ensures View() == Batch([], None)
    {
      items, kind, blob, count := [], None, [], 0;
      first, last, accepted := 0, 0, 0;
    }

    method Flush()
      modifies this
      ensures View() == Batch(Closed(old(View())), None)
      ensures kind.None? && accepted == old(accepted) && first == old(first)
    {
      if kind.Some? {
        items := items + [RunItem(OpenRun().value)];
      }
      kind := None;
    }

    /** The run's buffer, for rows of `newKind`; a share run's sequences are
        the caller's to keep. */
    method Append(newKind: Kind, canonical: Bytes)
      modifies this
      ensures kind == Some(newKind) && first == old(first) && last == old(last) && accepted == old(accepted)
      ensures if old(kind) == Some(newKind)
              then items == old(items) && count == old(count) + 1 && blob == old(blob) + (canonical + [LF])
              else items == Closed(old(View())) && count == 1 && blob == canonical + [LF]
    {
      if kind != Some(newKind) {
        if kind.Some? {
          items := items + [RunItem(OpenRun().value)];
        }
        kind, blob, count := Some(newKind), [], 0;
      }
      blob := blob + canonical;
      blob := blob + [LF];
      count := count + 1;
    }

    method Hashed(newKind: Kind, canonical: Bytes)
      requires !newKind.Shares?
      modifies this
      ensures View() == AddHashed(old(View()), newKind, canonical)
    {
      Append(newKind, canonical);
    }

    method Share(number: int, flag: int, canonical: Bytes)
      modifies this
      ensures View() == AddShare(old(View()), number, flag, canonical)
    {
      if kind == Some(Shares) && number <= last {
        Flush();
      }
      if kind != Some(Shares) {
        first, accepted := number, 0;
      }
      Append(Shares, canonical);
      last := number;
      accepted := accepted + flag;
    }

    method Record(name: Name, row: Json, canonical: Option<Bytes>)
      modifies this
      ensures View() == AddRecord(old(View()), name, row, canonical)
    {
      Flush();
      items := items + [RecordItem(name, row, canonical)];
    }

    method Row(p: Primitives, name: Name, row: Json)
      modifies this
      ensures View() == AddRow(p, old(View()), name, row)
    {
      if !name.Accounting? {
        Record(name, row, None);
        return;
      }
      var canonical := p.canonical(row);
      match name.kind {
        case Blocks => Record(name, row, Some(canonical));
        case ActiveCarry => Record(name, row, Some(canonical));
        case Candidates => Record(name, row, Some(canonical));
        case Shares =>
          if FastShare(row) {
            Share(row.m["share_seq"].i, FlagValue(row.m["accepted"]), canonical);
          } else {
            Record(name, ShareFields(row), Some(canonical));
          }
        case _ => Hashed(name.kind, canonical);
      }
    }
  }

  /** What a range's results can be short of all its lines. */
  predicate CutShort(items: seq<Item>) {
    items != [] && (items[|items| - 1].ErrorItem? || items[|items| - 1].SerialItem?)
  }

  /** One worker's range. `readable` is false where it cannot be read or
      decoded. */
  method ParseRange(p: Primitives, content: Bytes, r: Range, readable: bool)
    returns (lines: nat, items: seq<Item>)
    requires r.start <= RangeEnd(content, r) <= |content|
    ensures items == SERIAL || items == ParseLines(p, Batch([], None), RangeLines(content, r))
    ensures items == SERIAL || NoneSerial(items)
    ensures items == SERIAL || CutShort(items) || lines == |RangeLines(content, r)|
  {
    if !readable {
      return 0, SERIAL;
    }
    var text := content[r.start..RangeEnd(content, r)];
    if CR in text {
      TwoReplacements(text);
      text := ReplaceCr(CollapseCrlf(text));
    } else {
      UniversalWithoutCr(text);
    }
    var all := TextLines(text);
    SerialIsWhole(p, Batch([], None), all);
    var results := new Collector();
    lines := 0;
    while lines < |all|
      invariant lines <= |all|
      invariant fresh(results)
      invariant ParseLines(p, results.View(), all[lines..]) == ParseLines(p, Batch([], None), all)
    {
      ghost var rest := all[lines..];
      assert rest[0] == all[lines] && rest[1..] == all[lines + 1..];
      var record := Decode(p, all[lines]);
      lines := lines + 1;
      if record.Err? {
        if record.error.Fatal? {
          return lines, SERIAL;
        }
        results.Flush();
        return lines, results.items + [ErrorItem(record.error)];
      }
      results.Row(p, record.value.0, record.value.1);
    }
    results.Flush();
    return lines, results.items;
  }

  datatype Replayed = Fed | Untaken | Refused(error: Refusal)

  /** Replays a range. The signal for a range no worker took is raised before
      anything is fed, so the summary is as it was. */
  method Replay(summary: Summary, items: seq<Item>) returns (r: Replayed)
    requires items == SERIAL || NoneSerial(items)
    modifies summary
    ensures items == SERIAL ==> r == Untaken && summary.View() == old(summary.View())
    ensures items != SERIAL ==>
              match I.Replay(summary.p, old(summary.View()), items)
              case Ok(s) => r == Fed && summary.View() == s
              case Err(e) => r == Refused(e)
  {
    ghost var before := summary.View();
    for n := 0 to |items|
      invariant I.Replay(summary.p, before, items[..n]) == Ok(summary.View())
      invariant n == 0 ==> summary.View() == before
    {
      if items[n].SerialItem? {
        return Untaken;
      }
      var step := ReplayOne(summary, items[n]);
      OneReplayed(summary.p, before, items, n);
      if step.Err? {
        return Refused(step.error);
      }
    }
    assert items[..|items|] == items;
    return Fed;
  }

  /** One item more; its refusal is that of all the items. */
  lemma OneReplayed(p: Primitives, s: State, items: seq<Item>, n: nat)
    requires n < |items| && I.Replay(p, s, items[..n]).Ok?
    ensures var step := ReplayItem(p, I.Replay(p, s, items[..n]).value, items[n]);
            I.Replay(p, s, items[..n + 1]) == step && (step.Err? ==> I.Replay(p, s, items) == step)
  {
    assert items[..n + 1] == items[..n] + [items[n]];
    FoldLast(ItemStep(p), s, items[..n], items[n]);
    FoldPrefix(ItemStep(p), s, items[..n + 1], items);
  }

  method ReplayOne(summary: Summary, item: Item) returns (r: Result<()>)
    modifies summary
    ensures summary.Did(r, ReplayItem(summary.p, old(summary.View()), item))
  {
    match item
    case RowsItem(kind, count, blob) => r := summary.Rows(kind, count, blob);
    case SharesItem(count, blob, first, last, accepted) =>
      r := summary.ShareRun(count, blob, first, last, accepted);
    case RecordItem(name, row, canonical) =>
      var _ :- summary.Start();
      r := summary.Record(name, row, canonical);
    case ErrorItem(e) =>
      var _ :- summary.Start();
      r := Err(e);
    case SerialItem => r := Err(Fatal([]));
  }

  lemma CutShortFails(p: Primitives, s: State, items: seq<Item>)
    requires CutShort(items)
    ensures I.Replay(p, s, items).Err?
  {
  }

  /** Whether this host can run workers, and what becomes of each one: the
      n-th range may fail to be submitted or read, its worker may die, and a
      refusal in it may be followed by bytes that do not decode. */
  datatype Host = Host(
    pool: bool,
    submits: nat -> bool,
    readable: nat -> bool,
    survives: nat -> bool,
    decodes: nat -> bool)

  datatype Ranged = Finished | Checked(lines: nat) | Raised(error: Refusal) | FullySerial

  /** The lines of a list's first `n` ranges, and the rest of the file's. */
  lemma RangeStep(content: Bytes, ranges: seq<Range>, n: nat)
    requires Cuts(content, ranges) && n < |ranges|
    ensures ranges[n].start <= RangeEnd(content, ranges[n]) <= |content|
    ensures LinesBefore(content, ranges, n + 1) ==
            LinesBefore(content, ranges, n) + RangeLines(content, ranges[n])
    ensures LinesBefore(content, ranges, n + 1) <= TextRead(content)
  {
    CutsInBounds(content, ranges, n);
    PrefixOfAll(content, ranges, n + 1);
  }

  lemma {:induction false} PrefixOfAll(content: Bytes, ranges: seq<Range>, n: nat)
    requires Cuts(content, ranges) && n <= |ranges|
    ensures LinesBefore(content, ranges, n) <= TextRead(content)
    decreases |ranges| - n
  {
    if n == |ranges| {
      RangesReadAll(content, ranges);
    } else {
      PrefixOfAll(content, ranges, n + 1);
      CutsInBounds(content, ranges, n);
    }
  }

  /** One range's lines, checked after the ranges before it. */
  lemma NextRange(p: Primitives, content: Bytes, ranges: seq<Range>, n: nat, s: State)
    requires Cuts(content, ranges) && n < |ranges|
    requires Feed(p, INITIAL, LinesBefore(content, ranges, n)) == Ok(s)
    ensures ranges[n].start <= RangeEnd(content, ranges[n]) <= |content|
    ensures var step := Feed(p, s, RangeLines(content, ranges[n]));
            && Feed(p, INITIAL, LinesBefore(content, ranges, n + 1)) == step
            && (step.Err? ==> Feed(p, INITIAL, TextRead(content)) == step)
  {
    RangeStep(content, ranges, n);
    var lines, upTo := LinesBefore(content, ranges, n), LinesBefore(content, ranges, n + 1);
    FoldConcat(LineStep(p), INITIAL, lines, RangeLines(content, ranges[n]));
    FoldPrefix(LineStep(p), INITIAL, upTo, TextRead(content));
  }

  /** The first `n` ranges are checked, `checked` lines in all, up to state `s`. */
  ghost predicate UpTo(p: Primitives, content: Bytes, ranges: seq<Range>, n: nat, checked: nat, s: State)
    requires Cuts(content, ranges) && n <= |ranges|
  {
    var lines := LinesBefore(content, ranges, n);
    lines <= TextRead(content) && checked == |lines| && Feed(p, INITIAL, lines) == Ok(s)
  }

  lemma UpToStart(p: Primitives, content: Bytes, ranges: seq<Range>)
    requires Cuts(content, ranges)
    ensures UpTo(p, content, ranges, 0, 0, INITIAL)
  {
    PrefixOfAll(content, ranges, 0);
  }

  lemma UpToMeans(p: Primitives, content: Bytes, ranges: seq<Range>, n: nat, checked: nat, s: State)
    requires Cuts(content, ranges) && n <= |ranges| && UpTo(p, content, ranges, n, checked, s)
    ensures checked <= |TextRead(content)| && Feed(p, INITIAL, TextRead(content)[..checked]) == Ok(s)
    ensures n == |ranges| ==> Feed(p, INITIAL, TextRead(content)) == Ok(s)
  {
    assert LinesBefore(content, ranges, n) == TextRead(content)[..checked];
    if n == |ranges| {
      RangesReadAll(content, ranges);
    }
  }

  /** One range, parsed by its worker and replayed after the ranges before it. */
  method TakeRange(summary: Summary, content: Bytes, ranges: seq<Range>, n: nat, checked: nat, readable: bool)
    returns (step: Replayed, count: nat)
    requires Cuts(content, ranges) && n < |ranges| && UpTo(summary.p, content, ranges, n, checked, summary.View())
    modifies summary
    ensures step.Untaken? ==> summary.View() == old(summary.View())
    ensures step.Refused? ==> Feed(summary.p, INITIAL, TextRead(content)) == Err(step.error)
    ensures step.Fed? ==> UpTo(summary.p, content, ranges, n + 1, checked + count, summary.View())
  {
    ghost var s := summary.View();
    NextRange(summary.p, content, ranges, n, s);
    var items;
    count, items := ParseRange(summary.p, content, ranges[n], readable);
    if items != SERIAL {
      ReplayIsSerial(summary.p, s, RangeLines(content, ranges[n]));
      if CutShort(items) {
        CutShortFails(summary.p, s, items);
      }
    }
    step := Replay(summary, items);
    RangeStep(content, ranges, n);
  }

  /** Ranges given to workers, oldest first: the next ones in file order. */
  predicate Queued(pending: seq<nat>, replayed: nat, next: nat) {
    replayed + |pending| == next && forall k :: 0 <= k < |pending| ==> pending[k] == replayed + k
  }

  /** Keeps the workers busy, a few ranges ahead. */
  method Submit(queue: seq<nat>, ghost replayed: nat, from: nat, count: nat, jobs: nat, host: Host)
    returns (pending: seq<nat>, next: nat, broken: bool)
    requires from <= count && Queued(queue, replayed, from)
    ensures next <= count && Queued(pending, replayed, next)
    ensures !broken && pending == [] ==> next == count
  {
    pending, next, broken := queue, from, false;
    while |pending| < jobs + 2 && next < count
      invariant next <= count && Queued(pending, replayed, next)
    {
      if !host.submits(next) {
        broken := true;
        return;
      }
      pending := pending + [next];
      next := next + 1;
    }
  }

  /** What an outcome says of the summary it leaves. */
  ghost predicate Answers(p: Primitives, content: Bytes, r: Ranged, s: State) {
    match r
    case Finished => Feed(p, INITIAL, TextRead(content)) == Ok(s)
    case Checked(lines) =>
      lines <= |TextRead(content)| && Feed(p, INITIAL, TextRead(content)[..lines]) == Ok(s)
    case Raised(e) => Feed(p, INITIAL, TextRead(content)) == Err(e)
    case FullySerial => true
  }

  /** One round: the workers are kept busy, and the oldest range is replayed. */
  method TakeNext(summary: Summary, content: Bytes, ranges: seq<Range>, queue: seq<nat>, ghost replayed: nat,
      from: nat, checked: nat, jobs: nat, host: Host)
    returns (r: Option<Ranged>, pending: seq<nat>, next: nat, count: nat)
    requires Cuts(content, ranges) && from <= |ranges| && Queued(queue, replayed, from)
    requires UpTo(summary.p, content, ranges, replayed, checked, summary.View())
    modifies summary
    ensures r.Some? ==> Answers(summary.p, content, r.value, summary.View())
    ensures r.None? ==>
              && replayed < |ranges| && next <= |ranges| && Queued(pending, replayed + 1, next)
              && UpTo(summary.p, content, ranges, replayed + 1, checked + count, summary.View())
  {
    r, count := None, 0;
    UpToMeans(summary.p, content, ranges, replayed, checked, summary.View());
    var broken;
    pending, next, broken := Submit(queue, replayed, from, |ranges|, jobs, host);
    if broken {
      r := Some(Checked(checked));
      return;
    }
    if pending == [] {
      r := Some(Finished);
      return;
    }
    var n := pending[0];
    pending := pending[1..];
    if !host.survives(n) {
      r := Some(Checked(checked));
      return;
    }
    var step;
    step, count := TakeRange(summary, content, ranges, n, checked, host.readable(n));
    if step.Untaken? {
      r := Some(Checked(checked));
    } else if step.Refused? {
      r := Some(if host.decodes(n) then Raised(step.error) else FullySerial);
    }
  }

  method SummarizeRanges(summary: Summary, content: Bytes, jobs: nat, chunk: nat, host: Host) returns (r: Ranged)
    requires summary.View() == INITIAL
    modifies summary
    ensures Answers(summary.p, content, r, summary.View())
  {
    if !host.pool {
      assert TextRead(content)[..0] == [];
      return Checked(0);
    }
    var ranges := CutRanges(content, chunk);
    var pending: seq<nat> := [];
    var next: nat, checked: nat := 0, 0;
    ghost var replayed: nat := 0;
    UpToStart(summary.p, content, ranges);
    while true
      invariant next <= |ranges| && replayed <= |ranges| && Queued(pending, replayed, next)
      invariant UpTo(summary.p, content, ranges, replayed, checked, summary.View())
      decreases |ranges| - replayed
    {
      var done, count;
      done, pending, next, count := TakeNext(summary, content, ranges, pending, replayed, next, checked, jobs, host);
      if done.Some? {
        return done.value;
      }
      checked := checked + count;
      replayed := replayed + 1;
    }
  }

  method CheckLines(summary: Summary, lines: seq<Bytes>) returns (r: Result<()>)
    modifies summary
    ensures summary.Did(r, Feed(summary.p, old(summary.View()), lines))
  {
    ghost var before := summary.View();
    for n := 0 to |lines|
      invariant Feed(summary.p, before, lines[..n]) == Ok(summary.View())
    {
      assert lines[..n + 1][..n] == lines[..n];
      FoldPrefix(LineStep(summary.p), before, lines[..n + 1], lines);
      var _ :- summary.Line(lines[n]);
    }
    assert lines[..|lines|] == lines;
    return Ok(());
  }

  /** The summarizer of one file. Whatever the number of jobs, the chunk size
      and the fate of every worker, its report or its refusal is the serial
      summarizer's. */
  method SummarizeFile(p: Primitives, content: Bytes, jobs: nat, chunk: nat, host: Host) returns (r: Result<Report>)
    ensures r == Summarize(p, TextRead(content))
  {
    var summary := new Summary(p);
    var checked := 0;
    ghost var all := TextRead(content);
    assert all[..0] == [];
    if jobs > 1 {
      var ranged := SummarizeRanges(summary, content, jobs, chunk, host);
      match ranged
      case Finished =>
        return MakeReport(p, summary.View());
      case Raised(e) =>
        return Err(e);
      case FullySerial =>
        summary := new Summary(p);
      case Checked(n) =>
        checked := n;
    }
    var lines := TextLines(Universal(content));
    assert all == all[..checked] + all[checked..];
    FoldConcat(LineStep(p), INITIAL, all[..checked], all[checked..]);
    var _ :- CheckLines(summary, lines[checked..]);
    return MakeReport(p, summary.View());
  }
}
