/** Which record sequences the summarizer accepts, stated on the records
    alone: which kinds may come when, and in what order rows must be. */
module Structure {
  import opened Basics
  import opened Values
  import opened Evidence

  datatype Entry = Entry(name: Name, row: Json)

  /** The state after the first `n` records, or the first refusal. */
  function FeedTo(step: (State, Entry) -> Result<State>, entries: seq<Entry>, n: nat): Result<State>
    requires n <= |entries|
    decreases n
  {
    if n == 0 then Ok(INITIAL) else
    var s :- FeedTo(step, entries, n - 1);
    step(s, entries[n - 1])
  }

  function Step(p: Primitives, s: State, e: Entry): Result<State> {
    var s1 :- Start(s);
    Record(p, s1, e.name, e.row, None)
  }

  function StepOf(p: Primitives): (State, Entry) -> Result<State> {
    (s, e) => Step(p, s, e)
  }

  // ----- Reading one record

  predicate Marker(e: Entry) { e.name.CompletionMarker? }

  /** An integrity report; a null one is as if absent. */
  predicate Integral(e: Entry) { e.name.IntegrityReport? && !e.row.Null? }

  predicate Cursor(e: Entry) { e.name.DeferralCursor? }

  predicate Is(e: Entry, kind: Kind) { e.name == Accounting(kind) }

  predicate Numbered(row: Json) {
    var number := GetItem(row, "share_seq");
    number.Ok? && Number(number.value)
  }

  function ShareNumber(row: Json): real
    requires Numbered(row)
  {
    Plain(GetItem(row, "share_seq").value).r
  }

  predicate Placed(row: Json) {
    GetItem(row, "block_height").Ok? && GetItem(row, "carry_forward_seq").Ok?
  }

  /** A carry row's place: its block's height, then its number. */
  function Place(row: Json): seq<Json>
    requires Placed(row)
  {
    [GetItem(row, "block_height").value, GetItem(row, "carry_forward_seq").value]
  }

  /** The record has every field it may be asked for, in a usable shape. */
  predicate Readable(p: Primitives, e: Entry) {
    match e.name
    case Accounting(Shares) => Numbered(e.row) && ReadableFlag(p, e.row)
    case Accounting(Blocks) => ReadableBlock(e.row)
    case Accounting(ActiveCarry) => ReadableCarry(e.row)
    case Accounting(Candidates) => GetItem(e.row, "state").Ok?
    case _ => true
  }

  predicate ReadableFlag(p: Primitives, row: Json) {
    var flag := GetItem(row, "accepted");
    flag.Ok? && IntOf(p, flag.value).Ok?
  }

  predicate ReadableHash(row: Json) {
    var block := GetItem(row, "block_hash");
    block.Ok? && Hashable(block.value).Ok?
  }

  /** Only a block with an as-issued audit is asked for its hash. */
  predicate ReadableBlock(row: Json) {
    var issued := Get(row, "as_issued_audit_sha256");
    issued.Ok? && (issued.value.Null? || ReadableHash(row))
  }

  predicate ReadableCarry(row: Json) {
    && Placed(row) && Hashable(Place(row)[1]).Ok? && ReadableHash(row) && CarryFields(row).Ok?
    && Amount(row, "prior_balance_sats").Ok?
    && Amount(row, "candidate_balance_sats").Ok?
    && Amount(row, "carry_forward_balance_sats").Ok?
  }

  // ----- The rules, on the records

  /** The place of the last carry row among the first `n` records. */
  function LastPlace(entries: seq<Entry>, n: nat): Option<seq<Json>>
    requires n <= |entries|
  {
    if n == 0 then None
    else if Is(entries[n - 1], ActiveCarry) && Placed(entries[n - 1].row) then Some(Place(entries[n - 1].row))
    else LastPlace(entries, n - 1)
  }

  predicate After(place: seq<Json>, before: Option<seq<Json>>) {
    before.None? || LeAll(place, before.value) == Ok(false)
  }

  /** Record `n` may follow the records before it, its own order aside. */
  ghost predicate MayFollow(entries: seq<Entry>, n: nat)
    requires n < |entries|
  {
    && (forall i :: 0 <= i < n ==> !Marker(entries[i]))
    && match entries[n].name
       case CompletionMarker => entries[n].row == Bool(true) && exists i :: 0 <= i < n && Integral(entries[i])
       case IntegrityReport => forall i :: 0 <= i < n ==> !Integral(entries[i])
       case DeferralCursor => entries[n].row.Obj? && forall i :: 0 <= i < n ==> !Cursor(entries[i])
       case Accounting(kind) =>
         && (forall i :: 0 <= i < n ==> !Integral(entries[i]))
         && (kind == Blocks ==> forall i :: 0 <= i < n ==> !Is(entries[i], ActiveCarry))
       case Unknown(_) => false
  }

  ghost predicate SharesIncrease(entries: seq<Entry>, n: nat)
    requires n <= |entries|
  {
    && (forall i :: 0 <= i < n && Is(entries[i], Shares) ==>
          Numbered(entries[i].row) && ShareNumber(entries[i].row) > 0.0)
    && (forall i, j :: 0 <= i < j < n && Is(entries[i], Shares) && Is(entries[j], Shares) ==>
          ShareNumber(entries[i].row) < ShareNumber(entries[j].row))
  }

  ghost predicate CarryInOrder(entries: seq<Entry>, n: nat)
    requires n <= |entries|
  {
    forall i :: 0 <= i < n && Is(entries[i], ActiveCarry) ==>
      Placed(entries[i].row) && After(Place(entries[i].row), LastPlace(entries, i))
  }

  /** The first `n` records keep every rule. */
  ghost predicate Structured(entries: seq<Entry>, n: nat)
    requires n <= |entries|
  {
    && (forall i :: 0 <= i < n ==> MayFollow(entries, i))
    && SharesIncrease(entries, n)
    && CarryInOrder(entries, n)
  }

  // ----- What the state remembers of the records

  function LastNumber(entries: seq<Entry>, n: nat): real
    requires n <= |entries|
  {
    if n == 0 then 0.0
    else if Is(entries[n - 1], Shares) && Numbered(entries[n - 1].row) then ShareNumber(entries[n - 1].row)
    else LastNumber(entries, n - 1)
  }

  ghost predicate Remembers(s: State, entries: seq<Entry>, n: nat)
    requires n <= |entries|
  {
    && (s.complete <==> exists i :: 0 <= i < n && Marker(entries[i]))
    && (!s.integrity.Null? <==> exists i :: 0 <= i < n && Integral(entries[i]))
    && (!s.deferred.Null? <==> exists i :: 0 <= i < n && Cursor(entries[i]))
    && (s.carryStarted <==> exists i :: 0 <= i < n && Is(entries[i], ActiveCarry))
    && s.carryOrder == LastPlace(entries, n)
    && Number(s.lastSeq) && Plain(s.lastSeq).r == LastNumber(entries, n)
  }

  /** The state lets record `e` through. */
  predicate Lets(s: State, e: Entry) {
    && !s.complete
    && match e.name
       case CompletionMarker => e.row == Bool(true) && !s.integrity.Null?
       case IntegrityReport => s.integrity.Null?
       case DeferralCursor => e.row.Obj? && s.deferred.Null?
       case Accounting(kind) => s.integrity.Null? && LetsRow(s, kind, e.row)
       case Unknown(_) => false
  }

  predicate LetsRow(s: State, kind: Kind, row: Json) {
    match kind
    case Blocks => !s.carryStarted
    case ActiveCarry => Placed(row) && After(Place(row), s.carryOrder)
    case Shares => Numbered(row) && (Number(s.lastSeq) ==> ShareNumber(row) > Plain(s.lastSeq).r)
    case _ => true
  }

  /** What a record leaves in the state, as far as the rules look. */
  predicate Leaves(s: State, t: State, e: Entry) {
    && t.complete == (s.complete || Marker(e))
    && t.integrity.Null? == (s.integrity.Null? && !Integral(e))
    && t.deferred.Null? == (s.deferred.Null? && !Cursor(e))
    && t.carryStarted == (s.carryStarted || Is(e, ActiveCarry))
    && t.carryOrder == (if Is(e, ActiveCarry) && Placed(e.row) then Some(Place(e.row)) else s.carryOrder)
    && t.lastSeq == (if Is(e, Shares) && Numbered(e.row) then GetItem(e.row, "share_seq").value else s.lastSeq)
  }

  // ----- One record: let through, and what it leaves

  lemma BlockStep(s: State, row: Json)
    ensures BlockRow(s, row).Ok? ==>
              !s.carryStarted && Leaves(s, BlockRow(s, row).value, Entry(Accounting(Blocks), row))
    ensures !s.carryStarted && ReadableBlock(row) ==> BlockRow(s, row).Ok?
  {
  }

  lemma OffChainReads(row: Json, prior: int, gross: int, onchain: int)
    requires ReadableCarry(row)
    ensures OffChain(row, prior, gross, onchain).Ok?
  {
  }

  /** Nothing the rules or the marks look at differs. */
  predicate Unmoved(s: State, t: State) {
    && SameElse(s, t)
    && t.carryStarted == s.carryStarted && t.carryOrder == s.carryOrder && t.marked == s.marked
  }

  predicate SameElse(s: State, t: State) {
    t.complete == s.complete && t.integrity == s.integrity && t.deferred == s.deferred && t.lastSeq == s.lastSeq
  }

  lemma FlagStep(s: State, row: Json, offProgram: bool, offLabel: bool)
    ensures Flag(s, row, offProgram, offLabel).Ok? ==> Unmoved(s, Flag(s, row, offProgram, offLabel).value)
    ensures Placed(row) && Hashable(Place(row)[1]).Ok? ==> Flag(s, row, offProgram, offLabel).Ok?
  {
  }

  lemma JudgeStep(s: State, row: Json, c: Carry)
    ensures JudgeUnmarked(s, row, c).Ok? ==> Unmoved(s, JudgeUnmarked(s, row, c).value)
    ensures ReadableCarry(row) ==> JudgeUnmarked(s, row, c).Ok?
  {
    var offProgram := OffChain(row, At(s.byProgram, c.program, 0), c.gross, c.onchain);
    var offLabel := OffChain(row, At(s.byLabel, c.account, 0), c.gross, c.onchain);
    if ReadableCarry(row) {
      OffChainReads(row, At(s.byProgram, c.program, 0), c.gross, c.onchain);
      OffChainReads(row, At(s.byLabel, c.account, 0), c.gross, c.onchain);
    }
    if offProgram.Ok? && offLabel.Ok? {
      FlagStep(s, row, offProgram.value, offLabel.value);
    }
  }

  lemma OrderStep(s: State, row: Json)
    ensures NextOrder(s, row).Ok? ==>
              Placed(row) && After(Place(row), s.carryOrder) && NextOrder(s, row).value == Place(row)
    ensures Placed(row) && After(Place(row), s.carryOrder) ==> NextOrder(s, row).Ok?
  {
  }

  lemma CarryStep(p: Primitives, s: State, row: Json, canonical: Bytes)
    ensures CarryRow(p, s, row, canonical).Ok? ==>
              var t := CarryRow(p, s, row, canonical).value;
              && Placed(row) && After(Place(row), s.carryOrder) && SameElse(s, t)
              && t.carryStarted && t.carryOrder == Some(Place(row)) && t.marked == s.marked
    ensures Placed(row) && After(Place(row), s.carryOrder) && ReadableCarry(row) ==> CarryRow(p, s, row, canonical).Ok?
  {
    OrderStep(s, row);
    if NextOrder(s, row).Ok? && CarryFields(row).Ok? {
      JudgeStep(OpenCarry(p, s, row, canonical).value, row, CarryFields(row).value);
    }
  }

  lemma ShareStep(p: Primitives, s: State, row: Json)
    requires Number(s.lastSeq)
    ensures ShareRow(p, s, row).Ok? ==>
              Numbered(row) && ShareNumber(row) > Plain(s.lastSeq).r
              && Leaves(s, ShareRow(p, s, row).value, Entry(Accounting(Shares), row))
    ensures Numbered(row) && ReadableFlag(p, row) && ShareNumber(row) > Plain(s.lastSeq).r ==> ShareRow(p, s, row).Ok?
  {
  }

  /** What an accounting row's own check may do. */
  predicate RowLeaves(s: State, r: Result<State>, kind: Kind, row: Json, readable: bool) {
    && (r.Ok? ==> LetsRow(s, kind, row) && Leaves(s, r.value, Entry(Accounting(kind), row)))
    && (LetsRow(s, kind, row) && readable ==> r.Ok?)
  }

  lemma CandidateStep(s: State, row: Json)
    ensures RowLeaves(s, CandidateRow(s, row), Candidates, row, GetItem(row, "state").Ok?)
  {
  }

  lemma CarryLeaves(p: Primitives, s: State, row: Json, canonical: Bytes)
    ensures RowLeaves(s, CarryRow(p, s, row, canonical), ActiveCarry, row, ReadableCarry(row))
  {
    CarryStep(p, s, row, canonical);
  }

  lemma AccountStep(p: Primitives, s: State, kind: Kind, row: Json, canonical: Bytes)
    requires Number(s.lastSeq) && s.integrity.Null?
    ensures RowLeaves(s, Account(p, s, kind, row, canonical), kind, row, Readable(p, Entry(Accounting(kind), row)))
  {
    var s1 := Hashed(s, kind, 1, canonical + [LF]);
    match kind
    case Blocks => BlockStep(s1, row);
    case ActiveCarry => CarryLeaves(p, s1, row, canonical);
    case Shares => ShareStep(p, s1, row);
    case Candidates => CandidateStep(s1, row);
    case _ =>
  }

  /** A record passes only if the state lets it, and a readable one that the
      state lets passes. */
  ghost predicate Judges(step: (State, Entry) -> Result<State>, readable: Entry -> bool) {
    && (forall s: State, e: Entry :: Number(s.lastSeq) && step(s, e).Ok? ==>
          Lets(s, e) && Leaves(s, step(s, e).value, e))
    && (forall s: State, e: Entry :: Number(s.lastSeq) && Lets(s, e) && readable(e) ==> step(s, e).Ok?)
  }

  lemma StepLets(p: Primitives, s: State, e: Entry)
    requires Number(s.lastSeq)
    ensures Step(p, s, e).Ok? ==> Lets(s, e) && Leaves(s, Step(p, s, e).value, e)
    ensures Lets(s, e) && Readable(p, e) ==> Step(p, s, e).Ok?
  {
    if e.name.Accounting? && s.integrity.Null? {
      AccountStep(p, s, e.name.kind, e.row, p.canonical(e.row));
    }
  }

  function ReadableIn(p: Primitives): Entry -> bool {
    e => Readable(p, e)
  }

  lemma StepJudges(p: Primitives)
    ensures Judges(StepOf(p), ReadableIn(p))
  {
    forall s: State, e: Entry | Number(s.lastSeq)
      ensures StepOf(p)(s, e).Ok? ==> Lets(s, e) && Leaves(s, StepOf(p)(s, e).value, e)
      ensures Lets(s, e) && ReadableIn(p)(e) ==> StepOf(p)(s, e).Ok?
    {
      StepLets(p, s, e);
    }
  }

  // ----- Whole sequences

  lemma LeavesRemembers(s: State, t: State, entries: seq<Entry>, n: nat)
    requires n < |entries| && Remembers(s, entries, n) && Lets(s, entries[n]) && Leaves(s, t, entries[n])
    ensures Remembers(t, entries, n + 1)
  {
  }

  /** What the state lets through next is what the rules allow next. */
  lemma LetsIsMayFollow(s: State, entries: seq<Entry>, n: nat)
    requires n < |entries| && Remembers(s, entries, n)
    ensures Lets(s, entries[n]) <==>
              && MayFollow(entries, n)
              && (Is(entries[n], ActiveCarry) ==>
                    Placed(entries[n].row) && After(Place(entries[n].row), LastPlace(entries, n)))
              && (Is(entries[n], Shares) ==>
                    Numbered(entries[n].row) && ShareNumber(entries[n].row) > LastNumber(entries, n))
  {
  }

  /** The last number bounds all earlier ones, so it alone needs checking. */
  lemma {:induction false} LastBounds(entries: seq<Entry>, n: nat)
    requires n <= |entries| && SharesIncrease(entries, n)
    ensures LastNumber(entries, n) >= 0.0
    ensures forall i :: 0 <= i < n && Is(entries[i], Shares) ==> ShareNumber(entries[i].row) <= LastNumber(entries, n)
    ensures LastNumber(entries, n) == 0.0 ||
            exists i :: 0 <= i < n && Is(entries[i], Shares) && ShareNumber(entries[i].row) == LastNumber(entries, n)
    decreases n
  {
    if n > 0 {
      LastBounds(entries, n - 1);
    }
  }

  lemma SharesGrow(entries: seq<Entry>, n: nat)
    requires n < |entries| && SharesIncrease(entries, n)
    ensures SharesIncrease(entries, n + 1) <==>
              (Is(entries[n], Shares) ==>
                 Numbered(entries[n].row) && ShareNumber(entries[n].row) > LastNumber(entries, n))
  {
    LastBounds(entries, n);
  }

  lemma StructuredGrows(entries: seq<Entry>, n: nat)
    requires n < |entries|
    ensures Structured(entries, n + 1) <==>
              && Structured(entries, n) && MayFollow(entries, n)
              && SharesIncrease(entries, n + 1) && CarryInOrder(entries, n + 1)
  {
  }

  lemma NextIsLet(s: State, entries: seq<Entry>, n: nat)
    requires n < |entries| && Remembers(s, entries, n) && Structured(entries, n)
    ensures Lets(s, entries[n]) <==> Structured(entries, n + 1)
  {
    LetsIsMayFollow(s, entries, n);
    SharesGrow(entries, n);
    StructuredGrows(entries, n);
  }

  lemma NothingYet(entries: seq<Entry>)
    ensures Structured(entries, 0) && Remembers(INITIAL, entries, 0)
  {
  }

  lemma OneTaken(step: (State, Entry) -> Result<State>, readable: Entry -> bool, entries: seq<Entry>, n: nat,
      s: State, t: State)
    requires n < |entries| && Judges(step, readable) && Structured(entries, n) && Remembers(s, entries, n)
    requires step(s, entries[n]) == Ok(t)
    ensures Structured(entries, n + 1) && Remembers(t, entries, n + 1)
  {
    assert Number(s.lastSeq) && step(s, entries[n]).Ok?;
    NextIsLet(s, entries, n);
    LeavesRemembers(s, t, entries, n);
  }

  lemma {:induction false} TakenKeepsRules(step: (State, Entry) -> Result<State>, readable: Entry -> bool,
      entries: seq<Entry>, n: nat)
    requires n <= |entries| && Judges(step, readable) && FeedTo(step, entries, n).Ok?
    ensures Structured(entries, n) && Remembers(FeedTo(step, entries, n).value, entries, n)
    decreases n
  {
    if n == 0 {
      NothingYet(entries);
    } else {
      TakenKeepsRules(step, readable, entries, n - 1);
      OneTaken(step, readable, entries, n - 1, FeedTo(step, entries, n - 1).value, FeedTo(step, entries, n).value);
    }
  }

  lemma {:induction false} RulesKeptIsTaken(step: (State, Entry) -> Result<State>, readable: Entry -> bool,
      entries: seq<Entry>, n: nat)
    requires n <= |entries| && Judges(step, readable) && Structured(entries, n)
    requires forall i :: 0 <= i < n ==> readable(entries[i])
    ensures FeedTo(step, entries, n).Ok?
    decreases n
  {
    if n > 0 {
      StructuredGrows(entries, n - 1);
      RulesKeptIsTaken(step, readable, entries, n - 1);
      TakenKeepsRules(step, readable, entries, n - 1);
      NextIsLet(FeedTo(step, entries, n - 1).value, entries, n - 1);
    }
  }

  /** Whatever the summarizer takes without a refusal keeps every rule. */
  lemma TakenIsStructured(p: Primitives, entries: seq<Entry>)
    requires FeedTo(StepOf(p), entries, |entries|).Ok?
    ensures Structured(entries, |entries|)
    ensures Remembers(FeedTo(StepOf(p), entries, |entries|).value, entries, |entries|)
  {
    StepJudges(p);
    TakenKeepsRules(StepOf(p), ReadableIn(p), entries, |entries|);
  }

  /** Readable records are taken exactly when they keep every rule. */
  lemma TakenExactly(p: Primitives, entries: seq<Entry>)
    requires forall i :: 0 <= i < |entries| ==> Readable(p, entries[i])
    ensures FeedTo(StepOf(p), entries, |entries|).Ok? <==> Structured(entries, |entries|)
  {
    if FeedTo(StepOf(p), entries, |entries|).Ok? {
      TakenIsStructured(p, entries);
    } else if Structured(entries, |entries|) {
      StepJudges(p);
      RulesKeptIsTaken(StepOf(p), ReadableIn(p), entries, |entries|);
    }
  }

  // ----- The export's lines

  ghost predicate Holds(p: Primitives, lines: seq<Bytes>, entries: seq<Entry>) {
    && |entries| == |lines|
    && forall i :: 0 <= i < |lines| ==> Decode(p, lines[i]) == Ok((entries[i].name, entries[i].row))
  }

  lemma {:induction false} SameSteps<X>(f: (State, X) -> Result<State>, g: (State, Entry) -> Result<State>,
      xs: seq<X>, entries: seq<Entry>, n: nat)
    requires n <= |xs| == |entries| && forall i, s :: 0 <= i < |xs| ==> f(s, xs[i]) == g(s, entries[i])
    ensures Fold(f, INITIAL, xs[..n]) == FeedTo(g, entries, n)
    decreases n
  {
    if n > 0 {
      var most := xs[..n];
      assert most[..n - 1] == xs[..n - 1] && most[n - 1] == xs[n - 1];
      SameSteps(f, g, xs, entries, n - 1);
    }
  }

  lemma LineIsStep(p: Primitives, s: State, line: Bytes, e: Entry)
    requires Decode(p, line) == Ok((e.name, e.row))
    ensures LineStep(p)(s, line) == StepOf(p)(s, e)
  {
  }

  lemma LinesAreRecords(p: Primitives, lines: seq<Bytes>, entries: seq<Entry>)
    requires Holds(p, lines, entries)
    ensures Feed(p, INITIAL, lines) == FeedTo(StepOf(p), entries, |entries|)
  {
    var f, g := LineStep(p), StepOf(p);
    forall i, s | 0 <= i < |lines| ensures f(s, lines[i]) == g(s, entries[i]) {
      LineIsStep(p, s, lines[i], entries[i]);
    }
    SameSteps(f, g, lines, entries, |lines|);
    assert lines[..|lines|] == lines;
  }

  /** A report is made only of records that keep every rule and end with the
      completion marker, after exactly one integrity report. */
  lemma ReportedIsStructured(p: Primitives, lines: seq<Bytes>, entries: seq<Entry>)
    requires Holds(p, lines, entries) && Summarize(p, lines).Ok?
    ensures Structured(entries, |entries|) && entries != [] && Marker(entries[|entries| - 1])
    ensures exists i :: 0 <= i < |entries| && Integral(entries[i]) &&
              forall j :: 0 <= j < |entries| && j != i ==> !Integral(entries[j])
  {
    LinesAreRecords(p, lines, entries);
    TakenIsStructured(p, entries);
    MarkerIsLast(entries);
  }

  /** The rules leave one place for the marker, and one integrity report. */
  lemma MarkerIsLast(entries: seq<Entry>)
    requires Structured(entries, |entries|) && exists i :: 0 <= i < |entries| && Marker(entries[i])
    ensures entries != [] && Marker(entries[|entries| - 1])
    ensures exists i :: 0 <= i < |entries| && Integral(entries[i]) &&
              forall j :: 0 <= j < |entries| && j != i ==> !Integral(entries[j])
  {
    var m :| 0 <= m < |entries| && Marker(entries[m]);
    assert MayFollow(entries, |entries| - 1);
    assert MayFollow(entries, m);
    var i :| 0 <= i < m && Integral(entries[i]);
    forall j | 0 <= j < |entries| && j != i ensures !Integral(entries[j]) {
      assert MayFollow(entries, j);
      assert MayFollow(entries, i);
    }
  }

  // ----- Marked blocks are known before any carry row is judged

  predicate CarryLine(p: Primitives, line: Bytes) {
    var record := Decode(p, line);
    record.Ok? && record.value.0 == Accounting(ActiveCarry)
  }

  lemma OthersKeepMarked(p: Primitives, s: State, kind: Kind, row: Json, canonical: Bytes)
    requires s.carryStarted && kind != ActiveCarry && Account(p, s, kind, row, canonical).Ok?
    ensures var t := Account(p, s, kind, row, canonical).value; t.marked == s.marked && t.carryStarted
  {
  }

  lemma BlockFirst(p: Primitives, s: State, line: Bytes)
    requires Line(p, s, line).Ok? && !CarryLine(p, line) && s.carryStarted
    ensures Line(p, s, line).value.marked == s.marked && Line(p, s, line).value.carryStarted
  {
    var (name, row) := Decode(p, line).value;
    if name.Accounting? {
      OthersKeepMarked(p, s, name.kind, row, p.canonical(row));
    }
  }

  lemma CarryKeepsMarked(p: Primitives, s: State, line: Bytes)
    requires CarryLine(p, line) && Line(p, s, line).Ok?
    ensures Line(p, s, line).value.marked == s.marked && Line(p, s, line).value.carryStarted
  {
    var row := Decode(p, line).value.1;
    var canonical := p.canonical(row);
    CarryStep(p, Hashed(s, ActiveCarry, 1, canonical + [LF]), row, canonical);
  }

  /** From the first carry row on, no line changes which blocks are marked. */
  lemma {:induction false} MarkedIsFixed(p: Primitives, lines: seq<Bytes>, i: nat, n: nat)
    requires i < n <= |lines| && Feed(p, INITIAL, lines[..n]).Ok? && CarryLine(p, lines[i])
    ensures Feed(p, INITIAL, lines[..i]).Ok? && Feed(p, INITIAL, lines[..n]).value.carryStarted
    ensures Feed(p, INITIAL, lines[..n]).value.marked == Feed(p, INITIAL, lines[..i]).value.marked
    decreases n
  {
    var most := lines[..n];
    assert most[..n - 1] == lines[..n - 1] && most[n - 1] == lines[n - 1];
    var s := Feed(p, INITIAL, lines[..n - 1]).value;
    if i < n - 1 {
      MarkedIsFixed(p, lines, i, n - 1);
    }
    if CarryLine(p, lines[n - 1]) {
      CarryKeepsMarked(p, s, lines[n - 1]);
    } else {
      BlockFirst(p, s, lines[n - 1]);
    }
  }
}
