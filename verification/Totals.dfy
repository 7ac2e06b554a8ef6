/** What an accepted report totals, as plain sums over the export's records. */
module Totals {
  import opened Basics
  import opened Values
  import opened Evidence
  import opened Structure

  // ----- The totals, on the records

  function CountOf(entries: seq<Entry>, n: nat, kind: Kind): nat
    requires n <= |entries|
  {
    if n == 0 then 0 else CountOf(entries, n - 1, kind) + if Is(entries[n - 1], kind) then 1 else 0
  }

  /** The canonical rows of one kind, one per line, in file order. */
  function LogOf(p: Primitives, entries: seq<Entry>, n: nat, kind: Kind): Bytes
    requires n <= |entries|
  {
    if n == 0 then []
    else LogOf(p, entries, n - 1, kind) +
         if Is(entries[n - 1], kind) then p.canonical(entries[n - 1].row) + [LF] else []
  }

  /** The hash chain over the canonical carry rows. */
  function HeadOf(p: Primitives, entries: seq<Entry>, n: nat): Bytes
    requires n <= |entries|
  {
    if n == 0 then NO_HEAD
    else if Is(entries[n - 1], ActiveCarry) then p.sha256(HeadOf(p, entries, n - 1) + p.canonical(entries[n - 1].row))
    else HeadOf(p, entries, n - 1)
  }

  function FlagOf(p: Primitives, row: Json): int {
    match GetItem(row, "accepted")
    case Ok(flag) => (match IntOf(p, flag) case Ok(i) => i case Err(_) => 0)
    case Err(_) => 0
  }

  function AcceptedOf(p: Primitives, entries: seq<Entry>, n: nat): int
    requires n <= |entries|
  {
    if n == 0 then 0
    else AcceptedOf(p, entries, n - 1) + if Is(entries[n - 1], Shares) then FlagOf(p, entries[n - 1].row) else 0
  }

  predicate InState(row: Json, states: set<Json>) {
    var state := GetItem(row, "state");
    state.Ok? && state.value in states
  }

  function CandidatesIn(entries: seq<Entry>, n: nat, states: set<Json>): nat
    requires n <= |entries|
  {
    if n == 0 then 0
    else CandidatesIn(entries, n - 1, states) +
         if Is(entries[n - 1], Candidates) && InState(entries[n - 1].row, states) then 1 else 0
  }

  const PENDING: set<Json> := {Str("pending")}

  const FINISHED: set<Json> := {Str("submitted"), Str("abandoned"), Str("orphaned")}

  // ----- The state holds them

  ghost predicate Hashes(p: Primitives, s: State, entries: seq<Entry>, n: nat)
    requires n <= |entries|
  {
    && (forall kind :: At(s.counts, kind, 0) == CountOf(entries, n, kind))
    && (forall kind :: At(s.logs, kind, []) == LogOf(p, entries, n, kind))
  }

  ghost predicate Adds(p: Primitives, s: State, entries: seq<Entry>, n: nat)
    requires n <= |entries|
  {
    && s.head == HeadOf(p, entries, n)
    && s.accepted == AcceptedOf(p, entries, n)
    && s.pending == CandidatesIn(entries, n, PENDING)
    && s.unfinished + CandidatesIn(entries, n, FINISHED) == CountOf(entries, n, Candidates)
  }

  /** One record's effect on the hashed rows. */
  predicate HashesOne(p: Primitives, s: State, t: State, e: Entry) {
    if e.name.Accounting? then
      var h := Hashed(s, e.name.kind, 1, p.canonical(e.row) + [LF]);
      t.logs == h.logs && t.counts == h.counts
    else t.logs == s.logs && t.counts == s.counts
  }

  /** One record's effect on the other totals. */
  predicate AddsOne(p: Primitives, s: State, t: State, e: Entry) {
    && t.head == (if Is(e, ActiveCarry) then p.sha256(s.head + p.canonical(e.row)) else s.head)
    && t.accepted == s.accepted + (if Is(e, Shares) then FlagOf(p, e.row) else 0)
    && t.pending == s.pending + (if Is(e, Candidates) && InState(e.row, PENDING) then 1 else 0)
    && t.unfinished == s.unfinished + (if Is(e, Candidates) && !InState(e.row, FINISHED) then 1 else 0)
  }

  predicate SameTotals(s: State, t: State) {
    && t.logs == s.logs && t.counts == s.counts && t.head == s.head
    && t.accepted == s.accepted && t.pending == s.pending && t.unfinished == s.unfinished
  }

  lemma BlockTotals(s: State, row: Json)
    ensures BlockRow(s, row).Ok? ==> SameTotals(s, BlockRow(s, row).value)
  {
  }

  lemma FlagTotals(s: State, row: Json, offProgram: bool, offLabel: bool)
    ensures Flag(s, row, offProgram, offLabel).Ok? ==> SameTotals(s, Flag(s, row, offProgram, offLabel).value)
  {
  }

  lemma JudgeTotals(s: State, row: Json, c: Carry)
    ensures JudgeUnmarked(s, row, c).Ok? ==> SameTotals(s, JudgeUnmarked(s, row, c).value)
  {
    var offProgram := OffChain(row, At(s.byProgram, c.program, 0), c.gross, c.onchain);
    var offLabel := OffChain(row, At(s.byLabel, c.account, 0), c.gross, c.onchain);
    if offProgram.Ok? && offLabel.Ok? {
      FlagTotals(s, row, offProgram.value, offLabel.value);
    }
  }

  lemma CarryTotals(p: Primitives, s: State, row: Json, canonical: Bytes)
    ensures CarryRow(p, s, row, canonical).Ok? ==>
              SameTotals(s.(head := p.sha256(s.head + canonical)), CarryRow(p, s, row, canonical).value)
  {
    if OpenCarry(p, s, row, canonical).Ok? && CarryFields(row).Ok? {
      JudgeTotals(OpenCarry(p, s, row, canonical).value, row, CarryFields(row).value);
    }
  }

  lemma ShareTotals(p: Primitives, s: State, row: Json)
    ensures ShareRow(p, s, row).Ok? ==>
              SameTotals(s.(accepted := s.accepted + FlagOf(p, row)), ShareRow(p, s, row).value)
  {
  }

  lemma CandidateTotals(s: State, row: Json)
    ensures CandidateRow(s, row).Ok? ==>
              SameTotals(s.(pending := s.pending + if InState(row, PENDING) then 1 else 0,
                            unfinished := s.unfinished + if InState(row, FINISHED) then 0 else 1),
                         CandidateRow(s, row).value)
  {
  }

  lemma AccountTotals(p: Primitives, s: State, kind: Kind, row: Json)
    requires Account(p, s, kind, row, p.canonical(row)).Ok?
    ensures var t, e := Account(p, s, kind, row, p.canonical(row)).value, Entry(Accounting(kind), row);
            HashesOne(p, s, t, e) && AddsOne(p, s, t, e)
  {
    var s1 := Hashed(s, kind, 1, p.canonical(row) + [LF]);
    match kind
    case Blocks => BlockTotals(s1, row);
    case ActiveCarry => CarryTotals(p, s1, row, p.canonical(row));
    case Shares => ShareTotals(p, s1, row);
    case Candidates => CandidateTotals(s1, row);
    case _ =>
  }

  lemma StepTotals(p: Primitives, s: State, e: Entry)
    requires Step(p, s, e).Ok?
    ensures HashesOne(p, s, Step(p, s, e).value, e) && AddsOne(p, s, Step(p, s, e).value, e)
  {
    if e.name.Accounting? {
      AccountTotals(p, s, e.name.kind, e.row);
    } else {
      OtherTotals(p, s, e);
    }
  }

  lemma OtherTotals(p: Primitives, s: State, e: Entry)
    requires Step(p, s, e).Ok? && !e.name.Accounting?
    ensures SameTotals(s, Step(p, s, e).value)
  {
    match e.name
    case CompletionMarker => CompleteTotals(s, e.row);
    case IntegrityReport => IntegrityTotals(s, e.row);
    case DeferralCursor => DeferralTotals(s, e.row);
  }

  lemma CompleteTotals(s: State, row: Json)
    ensures Complete(s, row).Ok? ==> SameTotals(s, Complete(s, row).value)
  {
  }

  lemma IntegrityTotals(s: State, row: Json)
    ensures Integrity(s, row).Ok? ==> SameTotals(s, Integrity(s, row).value)
  {
  }

  lemma DeferralTotals(s: State, row: Json)
    ensures Deferral(s, row).Ok? ==> SameTotals(s, Deferral(s, row).value)
  {
  }

  lemma HashesNext(p: Primitives, s: State, t: State, entries: seq<Entry>, n: nat)
    requires n < |entries| && Hashes(p, s, entries, n) && HashesOne(p, s, t, entries[n])
    ensures Hashes(p, t, entries, n + 1)
  {
    forall kind ensures At(t.counts, kind, 0) == CountOf(entries, n + 1, kind) {
      assert At(s.counts, kind, 0) == CountOf(entries, n, kind);
    }
    forall kind ensures At(t.logs, kind, []) == LogOf(p, entries, n + 1, kind) {
      assert At(s.logs, kind, []) == LogOf(p, entries, n, kind);
      assert LogOf(p, entries, n, kind) + [] == LogOf(p, entries, n, kind);
    }
  }

  lemma AddsNext(p: Primitives, s: State, t: State, entries: seq<Entry>, n: nat)
    requires n < |entries| && Adds(p, s, entries, n) && AddsOne(p, s, t, entries[n])
    ensures Adds(p, t, entries, n + 1)
  {
  }

  /** A step that adds one record's share to every total. */
  ghost predicate Totalling(p: Primitives, step: (State, Entry) -> Result<State>) {
    forall s, e :: step(s, e).Ok? ==> HashesOne(p, s, step(s, e).value, e) && AddsOne(p, s, step(s, e).value, e)
  }

  lemma NoTotals(p: Primitives, entries: seq<Entry>)
    ensures Hashes(p, INITIAL, entries, 0) && Adds(p, INITIAL, entries, 0)
  {
  }

  lemma TotalsNext(p: Primitives, step: (State, Entry) -> Result<State>, s: State, entries: seq<Entry>, n: nat)
    requires n < |entries| && Totalling(p, step) && step(s, entries[n]).Ok?
    requires Hashes(p, s, entries, n) && Adds(p, s, entries, n)
    ensures var t := step(s, entries[n]).value; Hashes(p, t, entries, n + 1) && Adds(p, t, entries, n + 1)
  {
    var t := step(s, entries[n]).value;
    HashesNext(p, s, t, entries, n);
    AddsNext(p, s, t, entries, n);
  }

  lemma {:induction false} TotalsTo(p: Primitives, step: (State, Entry) -> Result<State>, entries: seq<Entry>, n: nat)
    requires n <= |entries| && Totalling(p, step) && FeedTo(step, entries, n).Ok?
    ensures Hashes(p, FeedTo(step, entries, n).value, entries, n) && Adds(p, FeedTo(step, entries, n).value, entries, n)
    decreases n
  {
    if n == 0 {
      NoTotals(p, entries);
    } else {
      TotalsTo(p, step, entries, n - 1);
      var s := FeedTo(step, entries, n - 1).value;
      TotalsNext(p, step, s, entries, n - 1);
    }
  }

  lemma FedTotals(p: Primitives, entries: seq<Entry>)
    requires FeedTo(StepOf(p), entries, |entries|).Ok?
    ensures var s := FeedTo(StepOf(p), entries, |entries|).value;
            Hashes(p, s, entries, |entries|) && Adds(p, s, entries, |entries|)
  {
    forall s, e | StepOf(p)(s, e).Ok?
      ensures HashesOne(p, s, StepOf(p)(s, e).value, e) && AddsOne(p, s, StepOf(p)(s, e).value, e)
    {
      StepTotals(p, s, e);
    }
    TotalsTo(p, StepOf(p), entries, |entries|);
  }

  // ----- The report

  /** The report's figures are the totals of the records it was made of. */
  lemma ReportTotals(p: Primitives, lines: seq<Bytes>, entries: seq<Entry>)
    requires Structure.Holds(p, lines, entries) && Summarize(p, lines).Ok?
    ensures var r, n := Summarize(p, lines).value, |entries|;
            && (forall kind :: kind in r.records <==> kind in KINDS)
            && (forall kind :: kind in r.records ==>
                  r.records[kind] == (CountOf(entries, n, kind), p.sha256(LogOf(p, entries, n, kind))))
            && r.auditHead == HeadOf(p, entries, n)
            && r.acceptedShares == AcceptedOf(p, entries, n)
            && r.pendingCandidates == CandidatesIn(entries, n, PENDING)
            && r.unfinishedCandidates + CandidatesIn(entries, n, FINISHED) == CountOf(entries, n, Candidates)
  {
    LinesAreRecords(p, lines, entries);
    FedTotals(p, entries);
    ReportHolds(p, Feed(p, INITIAL, lines).value);
  }

  lemma ReportHolds(p: Primitives, s: State)
    requires MakeReport(p, s).Ok?
    ensures var r := MakeReport(p, s).value;
            && r.records == Records(p, s) && r.auditHead == s.head && r.acceptedShares == s.accepted
            && r.pendingCandidates == s.pending && r.unfinishedCandidates == s.unfinished
  {
  }

  lemma ReportKeeps(p: Primitives, s: State)
    requires MakeReport(p, s).Ok?
    ensures MakeReport(p, s).value.lastShareSeq == s.lastSeq && MakeReport(p, s).value.deferred == s.deferred
    ensures !s.deferred.Null? ==> At(s.counts, ShareHashes, 0) == 0
    ensures IntField(s.integrity, "checked_active_rows") == Ok(At(s.counts, ActiveCarry, 0))
  {
  }

  /** The last sequence is the last share's, the database checked exactly the
      carry rows there are, and a deferral excludes every row it defers. */
  lemma ReportAgrees(p: Primitives, lines: seq<Bytes>, entries: seq<Entry>)
    requires Structure.Holds(p, lines, entries) && Summarize(p, lines).Ok?
    ensures var r, n := Summarize(p, lines).value, |entries|;
            && Number(r.lastShareSeq) && Plain(r.lastShareSeq).r == LastNumber(entries, n)
            && (r.deferred.Null? <==> forall i :: 0 <= i < n ==> !Cursor(entries[i]))
            && (!r.deferred.Null? ==> CountOf(entries, n, ShareHashes) == 0)
            && IntField(Feed(p, INITIAL, lines).value.integrity, "checked_active_rows") ==
               Ok(CountOf(entries, n, ActiveCarry))
  {
    LinesAreRecords(p, lines, entries);
    TakenIsStructured(p, entries);
    FedTotals(p, entries);
    ReportKeeps(p, Feed(p, INITIAL, lines).value);
  }
}
