/** What a worker hands back for its part of the file: neighbouring rows that
    need no check of their own are folded into one item, and the rest are kept
    apart. The theorem is that replaying the items is checking the lines one by
    one. */
module Items {
  import opened Basics
  import opened Values
  import opened Evidence

  datatype Item =
    | RowsItem(kind: Kind, count: nat, blob: Bytes)
    | SharesItem(count: nat, blob: Bytes, first: int, last: int, accepted: int)
    | RecordItem(name: Name, row: Json, canonical: Option<Bytes>)
    | ErrorItem(error: Refusal)
    | SerialItem

  /** What a worker returns instead when the range is left to the serial reader. */
  const SERIAL: seq<Item> := [SerialItem]

  datatype Run =
    | RowRun(kind: Kind, count: nat, blob: Bytes)
    | ShareRows(count: nat, blob: Bytes, first: int, last: int, accepted: int)

  /** The items so far and the run still open. */
  datatype Batch = Batch(items: seq<Item>, run: Option<Run>)

  function RunItem(run: Run): Item {
    match run
    case RowRun(kind, count, blob) => RowsItem(kind, count, blob)
    case ShareRows(count, blob, first, last, accepted) => SharesItem(count, blob, first, last, accepted)
  }

  function Closed(b: Batch): seq<Item> {
    if b.run.None? then b.items else b.items + [RunItem(b.run.value)]
  }

  function AddHashed(b: Batch, kind: Kind, canonical: Bytes): Batch {
    var row := canonical + [LF];
    match b.run
    case Some(RowRun(k, count, blob)) =>
      if k == kind then Batch(b.items, Some(RowRun(k, count + 1, blob + row)))
      else Batch(Closed(b), Some(RowRun(kind, 1, row)))
    case _ => Batch(Closed(b), Some(RowRun(kind, 1, row)))
  }

  /** A share that does not rise above the last one opens an item of its own,
      and so is refused when the item is replayed. */
  function AddShare(b: Batch, number: int, accepted: int, canonical: Bytes): Batch {
    var row := canonical + [LF];
    match b.run
    case Some(ShareRows(count, blob, first, last, sum)) =>
      if number <= last then Batch(Closed(b), Some(ShareRows(1, row, number, number, accepted)))
      else Batch(b.items, Some(ShareRows(count + 1, blob + row, first, number, sum + accepted)))
    case _ => Batch(Closed(b), Some(ShareRows(1, row, number, number, accepted)))
  }

  function AddRecord(b: Batch, name: Name, row: Json, canonical: Option<Bytes>): Batch {
    Batch(Closed(b) + [RecordItem(name, row, canonical)], None)
  }

  predicate FastShare(row: Json) {
    row.Obj? && At(row.m, "share_seq", Null).Int? &&
    (At(row.m, "accepted", Null).Bool? || At(row.m, "accepted", Null).Int?)
  }

  function FlagValue(v: Json): int {
    match v
    case Bool(b) => if b then 1 else 0
    case Int(i) => i
    case _ => 0
  }

  /** The part of a row that decides how it fares as a share. */
  function ShareFields(row: Json): Json {
    if !row.Obj? then row
    else Obj(map k | k in row.m && k in {"share_seq", "accepted"} :: row.m[k])
  }

  function AddRow(p: Primitives, b: Batch, name: Name, row: Json): Batch {
    if !name.Accounting? then AddRecord(b, name, row, None) else
    var canonical := p.canonical(row);
    match name.kind
    case Blocks => AddRecord(b, name, row, Some(canonical))
    case ActiveCarry => AddRecord(b, name, row, Some(canonical))
    case Candidates => AddRecord(b, name, row, Some(canonical))
    case Shares =>
      if FastShare(row)
      then AddShare(b, row.m["share_seq"].i, FlagValue(row.m["accepted"]), canonical)
      else AddRecord(b, name, ShareFields(row), Some(canonical))
    case _ => AddHashed(b, name.kind, canonical)
  }

  /** The items of a range that continues `b`. A line that fails to parse ends
      the range with its error; a failure outside the summarizer's own
      refusals leaves the range to the serial reader. */
  function ParseLines(p: Primitives, b: Batch, lines: seq<Bytes>): seq<Item>
    decreases |lines|
  {
    if lines == [] then Closed(b) else
    match Decode(p, lines[0])
    case Err(e) => if e.Fatal? then SERIAL else Closed(b) + [ErrorItem(e)]
    case Ok(record) => ParseLines(p, AddRow(p, b, record.0, record.1), lines[1..])
  }

  // ----- Replay

  function ReplayItem(p: Primitives, s: State, item: Item): Result<State> {
    match item
    case RowsItem(kind, count, blob) => Rows(s, kind, count, blob)
    case SharesItem(count, blob, first, last, accepted) => ShareRun(s, count, blob, first, last, accepted)
    case RecordItem(name, row, canonical) => (var s1 :- Start(s); Record(p, s1, name, row, canonical))
    case ErrorItem(e) => (var _ :- Start(s); Err(e))
    case SerialItem => Err(Fatal([]))
  }

  function ItemStep(p: Primitives): (State, Item) -> Result<State> {
    (s, item) => ReplayItem(p, s, item)
  }

  function Replay(p: Primitives, s: State, items: seq<Item>): Result<State> {
    Fold(ItemStep(p), s, items)
  }

  /** Hashing a row after a run of its kind is hashing a run one longer. */
  lemma HashedTwice(s: State, kind: Kind, n: nat, blob: Bytes, row: Bytes)
    ensures Hashed(Hashed(s, kind, n, blob), kind, 1, row) == Hashed(s, kind, n + 1, blob + row)
  {
    assert At(s.logs, kind, []) + blob + row == At(s.logs, kind, []) + (blob + row);
  }

  lemma LineOf(p: Primitives, s: State, line: Bytes, row: Json, kind: Kind)
    requires Decode(p, line) == Ok((Accounting(kind), row))
    ensures Line(p, s, line) == if s.complete then Start(s) else Account(p, s, kind, row, p.canonical(row))
  {
  }

  /** A line that does what an item does, after the batch that item ends. */
  lemma ItemLine(p: Primitives, s: State, items: seq<Item>, item: Item, line: Bytes)
    requires forall t :: Line(p, t, line) == ReplayItem(p, t, item)
    ensures Replay(p, s, items + [item]) == Then(LineStep(p), Replay(p, s, items), line)
  {
    FoldLast(ItemStep(p), s, items, item);
  }

  lemma RowsTwice(s: State, kind: Kind, n: nat, blob: Bytes, row: Bytes)
    ensures var run := Rows(s, kind, n, blob);
            (if run.Err? then run else Rows(run.value, kind, 1, row)) == Rows(s, kind, n + 1, blob + row)
  {
    HashedTwice(s, kind, n, blob, row);
  }

  /** A run is refused at its first row or not at all: the rows after it rise
      from the sequence the run already left behind. */
  lemma ShareRunTwice(s: State, n: nat, blob: Bytes, first: int, last: int, sum: int, row: Bytes, number: int,
      flag: int)
    requires last < number
    ensures var run := ShareRun(s, n, blob, first, last, sum);
            (if run.Err? then run else ShareRun(run.value, 1, row, number, number, flag)) ==
            ShareRun(s, n + 1, blob + row, first, number, sum + flag)
  {
    HashedTwice(s, Shares, n, blob, row);
    assert Le(Int(number), Int(last)) == Ok(false);
  }

  lemma HashedIsRows(p: Primitives, s: State, line: Bytes, row: Json, kind: Kind)
    requires Decode(p, line) == Ok((Accounting(kind), row))
    requires kind.ShareHashes? || kind.Other?
    ensures Line(p, s, line) == ReplayItem(p, s, RowsItem(kind, 1, p.canonical(row) + [LF]))
  {
    LineOf(p, s, line, row, kind);
  }

  lemma ShareIsRun(p: Primitives, s: State, line: Bytes, row: Json)
    requires Decode(p, line) == Ok((Accounting(Shares), row))
    requires FastShare(row)
    ensures var number := row.m["share_seq"].i;
            Line(p, s, line) ==
            ReplayItem(p, s, SharesItem(1, p.canonical(row) + [LF], number, number, FlagValue(row.m["accepted"])))
  {
    LineOf(p, s, line, row, Shares);
  }

  /** Replaying `both` is replaying `one` and then `two`, from every state. */
  ghost predicate Merges(p: Primitives, one: Item, two: Item, both: Item) {
    forall s :: ReplayItem(p, s, both) == Then(ItemStep(p), ReplayItem(p, s, one), two)
  }

  lemma RowRunMerges(p: Primitives, run: Run, row: Item)
    requires run.RowRun? && row.RowsItem? && row.count == 1 && row.kind == run.kind
    ensures Merges(p, RunItem(run), row, RowsItem(run.kind, run.count + 1, run.blob + row.blob))
  {
    forall s {
      RowsTwice(s, run.kind, run.count, run.blob, row.blob);
    }
  }

  lemma ShareRunMerges(p: Primitives, run: Run, row: Item)
    requires run.ShareRows? && row.SharesItem? && row.count == 1 && row.first == row.last && run.last < row.first
    ensures Merges(p, RunItem(run), row,
                   SharesItem(run.count + 1, run.blob + row.blob, run.first, row.last, run.accepted + row.accepted))
  {
    forall s {
      ShareRunTwice(s, run.count, run.blob, run.first, run.last, run.accepted, row.blob, row.first, row.accepted);
    }
  }

  lemma Merged(p: Primitives, s: State, items: seq<Item>, one: Item, two: Item, both: Item)
    requires Merges(p, one, two, both)
    ensures Replay(p, s, items + [both]) == Then(ItemStep(p), Replay(p, s, items + [one]), two)
  {
    FoldMerged(ItemStep(p), s, items, one, two, both);
  }

  /** A row added to a batch is the row replayed after it, whether or not it
      lengthens the batch's last run. */
  lemma AddedRow(p: Primitives, s: State, b: Batch, kind: Kind, canonical: Bytes)
    ensures Replay(p, s, Closed(AddHashed(b, kind, canonical))) ==
            Then(ItemStep(p), Replay(p, s, Closed(b)), RowsItem(kind, 1, canonical + [LF]))
  {
    var row := RowsItem(kind, 1, canonical + [LF]);
    if b.run.Some? && b.run.value.RowRun? && b.run.value.kind == kind {
      var run := b.run.value;
      RowRunMerges(p, run, row);
      Merged(p, s, b.items, RunItem(run), row, RowsItem(run.kind, run.count + 1, run.blob + row.blob));
    } else {
      assert Closed(AddHashed(b, kind, canonical)) == Closed(b) + [row];
      FoldLast(ItemStep(p), s, Closed(b), row);
    }
  }

  lemma AddedShare(p: Primitives, s: State, b: Batch, number: int, flag: int, canonical: Bytes)
    ensures Replay(p, s, Closed(AddShare(b, number, flag, canonical))) ==
            Then(ItemStep(p), Replay(p, s, Closed(b)), SharesItem(1, canonical + [LF], number, number, flag))
  {
    var row := SharesItem(1, canonical + [LF], number, number, flag);
    if b.run.Some? && b.run.value.ShareRows? && b.run.value.last < number {
      var run := b.run.value;
      var longer := SharesItem(run.count + 1, run.blob + row.blob, run.first, row.last, run.accepted + row.accepted);
      ShareRunMerges(p, run, row);
      assert Closed(AddShare(b, number, flag, canonical)) == b.items + [longer];
      Merged(p, s, b.items, RunItem(run), row, longer);
    } else {
      assert Closed(AddShare(b, number, flag, canonical)) == Closed(b) + [row];
      FoldLast(ItemStep(p), s, Closed(b), row);
    }
  }

  lemma SameStep(p: Primitives, r: Result<State>, item: Item, line: Bytes)
    requires r.Ok? ==> Line(p, r.value, line) == ReplayItem(p, r.value, item)
    ensures Then(ItemStep(p), r, item) == Then(LineStep(p), r, line)
  {
  }

  lemma HashedLine(p: Primitives, s: State, b: Batch, line: Bytes, row: Json, kind: Kind)
    requires Decode(p, line) == Ok((Accounting(kind), row))
    requires kind.ShareHashes? || kind.Other?
    ensures Replay(p, s, Closed(AddHashed(b, kind, p.canonical(row)))) ==
            Then(LineStep(p), Replay(p, s, Closed(b)), line)
  {
    var done := Replay(p, s, Closed(b));
    if done.Ok? {
      HashedIsRows(p, done.value, line, row, kind);
    }
    AddedRow(p, s, b, kind, p.canonical(row));
    SameStep(p, done, RowsItem(kind, 1, p.canonical(row) + [LF]), line);
  }

  lemma ShareLine(p: Primitives, s: State, b: Batch, line: Bytes, row: Json)
    requires Decode(p, line) == Ok((Accounting(Shares), row))
    requires FastShare(row)
    ensures Replay(p, s, Closed(AddShare(b, row.m["share_seq"].i, FlagValue(row.m["accepted"]), p.canonical(row)))) ==
            Then(LineStep(p), Replay(p, s, Closed(b)), line)
  {
    var number, flag := row.m["share_seq"].i, FlagValue(row.m["accepted"]);
    var done := Replay(p, s, Closed(b));
    if done.Ok? {
      ShareIsRun(p, done.value, line, row);
    }
    AddedShare(p, s, b, number, flag, p.canonical(row));
    SameStep(p, done, SharesItem(1, p.canonical(row) + [LF], number, number, flag), line);
  }

  /** The share checks read no more of a row than `ShareFields` keeps. */
  lemma ShareFieldsSuffice(p: Primitives, s: State, row: Json)
    ensures ShareRow(p, s, row) == ShareRow(p, s, ShareFields(row))
  {
    assert GetItem(ShareFields(row), "share_seq") == GetItem(row, "share_seq");
    assert GetItem(ShareFields(row), "accepted") == GetItem(row, "accepted");
  }

  lemma OtherIsRecord(p: Primitives, s: State, line: Bytes, name: Name, row: Json)
    requires Decode(p, line) == Ok((name, row))
    ensures Line(p, s, line) == ReplayItem(p, s, RecordItem(name, row, None))
    ensures name.Accounting? ==> Line(p, s, line) == ReplayItem(p, s, RecordItem(name, row, Some(p.canonical(row))))
  {
  }

  lemma SlowShareIsRecord(p: Primitives, s: State, line: Bytes, row: Json)
    requires Decode(p, line) == Ok((Accounting(Shares), row))
    ensures Line(p, s, line) ==
            ReplayItem(p, s, RecordItem(Accounting(Shares), ShareFields(row), Some(p.canonical(row))))
  {
    LineOf(p, s, line, row, Shares);
    ShareFieldsSuffice(p, Hashed(s, Shares, 1, p.canonical(row) + [LF]), row);
  }

  /** Batching one line after `b` is checking it after everything in `b`. */
  lemma AddRowIsLine(p: Primitives, s: State, b: Batch, line: Bytes)
    requires Decode(p, line).Ok?
    ensures var (name, row) := Decode(p, line).value;
            Replay(p, s, Closed(AddRow(p, b, name, row))) == Then(LineStep(p), Replay(p, s, Closed(b)), line)
  {
    var (name, row) := Decode(p, line).value;
    if name.Accounting? && name.kind.Shares? && FastShare(row) {
      ShareLine(p, s, b, line, row);
    } else if name.Accounting? && (name.kind.ShareHashes? || name.kind.Other?) {
      HashedLine(p, s, b, line, row, name.kind);
    } else {
      WholeLine(p, s, b, line, name, row);
    }
  }

  lemma WholeLine(p: Primitives, s: State, b: Batch, line: Bytes, name: Name, row: Json)
    requires Decode(p, line) == Ok((name, row))
    requires name.Accounting? ==>
               !name.kind.ShareHashes? && !name.kind.Other? && (name.kind.Shares? ==> !FastShare(row))
    ensures Replay(p, s, Closed(AddRow(p, b, name, row))) == Then(LineStep(p), Replay(p, s, Closed(b)), line)
  {
    var item :=
      if !name.Accounting? then RecordItem(name, row, None)
      else RecordItem(name, if name.kind.Shares? then ShareFields(row) else row, Some(p.canonical(row)));
    forall t ensures Line(p, t, line) == ReplayItem(p, t, item) {
      if name == Accounting(Shares) {
        SlowShareIsRecord(p, t, line, row);
      } else {
        OtherIsRecord(p, t, line, name, row);
      }
    }
    assert Closed(AddRow(p, b, name, row)) == Closed(b) + [item];
    ItemLine(p, s, Closed(b), item, line);
  }

  /** A line that cannot be read ends its range. */
  lemma UnreadLine(p: Primitives, s: State, b: Batch, line: Bytes, e: Refusal)
    requires Decode(p, line) == Err(e)
    ensures Replay(p, s, Closed(b) + [ErrorItem(e)]) == Then(LineStep(p), Replay(p, s, Closed(b)), line)
    ensures Replay(p, s, Closed(b) + [ErrorItem(e)]).Err?
  {
    forall t ensures Line(p, t, line) == ReplayItem(p, t, ErrorItem(e)) && Line(p, t, line).Err? {
    }
    ItemLine(p, s, Closed(b), ErrorItem(e), line);
  }

  lemma {:induction false} ParseContinues(p: Primitives, s: State, b: Batch, lines: seq<Bytes>)
    requires ParseLines(p, b, lines) != SERIAL
    ensures Replay(p, s, ParseLines(p, b, lines)) == ThenAll(LineStep(p), Replay(p, s, Closed(b)), lines)
    decreases |lines|
  {
    if lines != [] {
      assert lines == [lines[0]] + lines[1..];
      OneThenRest(LineStep(p), Replay(p, s, Closed(b)), lines[0], lines[1..]);
      match Decode(p, lines[0])
      case Err(e) => UnreadLine(p, s, b, lines[0], e);
      case Ok(record) =>
        AddRowIsLine(p, s, b, lines[0]);
        ParseContinues(p, s, AddRow(p, b, record.0, record.1), lines[1..]);
    }
  }

  lemma OneThenRest<S, X>(step: (S, X) -> Result<S>, r: Result<S>, x: X, xs: seq<X>)
    ensures ThenAll(step, r, [x] + xs) == ThenAll(step, Then(step, r, x), xs)
  {
    if r.Ok? {
      FoldFirst(step, r.value, x, xs);
    }
  }

  /** A range a worker takes, replayed from any state, is that range checked
      line by line: the same state, or the same first refusal. */
  lemma ReplayIsSerial(p: Primitives, s: State, lines: seq<Bytes>)
    requires ParseLines(p, Batch([], None), lines) != SERIAL
    ensures Replay(p, s, ParseLines(p, Batch([], None), lines)) == Feed(p, s, lines)
  {
    ParseContinues(p, s, Batch([], None), lines);
  }

  predicate NoneSerial(items: seq<Item>) { SerialItem !in items }

  /** A range is left to the serial reader as a whole or not at all. */
  lemma {:induction false} SerialIsWhole(p: Primitives, b: Batch, lines: seq<Bytes>)
    requires NoneSerial(b.items)
    ensures ParseLines(p, b, lines) == SERIAL || NoneSerial(ParseLines(p, b, lines))
    decreases |lines|
  {
    if lines != [] {
      match Decode(p, lines[0])
      case Err(e) =>
      case Ok(record) => SerialIsWhole(p, AddRow(p, b, record.0, record.1), lines[1..]);
    }
  }
}
