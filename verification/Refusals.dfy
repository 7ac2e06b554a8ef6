/** When the summarizer refuses a record for where it stands, whatever the
    record's own shape. */
module Refusals {
  import opened Basics
  import opened Values
  import opened Evidence
  import opened JsonOrder
  import opened Structure

  /** The refusals that are about order and kinds, not about one row's fields. */
  predicate Structural(r: Reason) {
    match r
    case AfterCompletion => true
    case BadCompletion => true
    case DuplicateIntegrity => true
    case AfterIntegrity => true
    case BlockAfterCarry => true
    case CarryOutOfOrder => true
    case ShareOutOfOrder => true
    case DuplicateDeferral => true
    case DeferralNotObject => true
    case UnknownKind => true
    case _ => false
  }

  predicate Refused<T>(r: Result<T>) {
    r.Err? && r.error.ValueError? && Structural(r.error.reason)
  }

  // ----- What a state forbids

  predicate NotAbove(row: Json, last: Json) {
    var number := GetItem(row, "share_seq");
    number.Ok? && Le(number.value, last) == Ok(true)
  }

  predicate NotAfter(row: Json, before: Option<seq<Json>>) {
    Placed(row) && before.Some? && LeAll(Place(row), before.value) == Ok(true)
  }

  predicate ForbidsRow(s: State, kind: Kind, row: Json) {
    match kind
    case Blocks => s.carryStarted
    case ActiveCarry => NotAfter(row, s.carryOrder)
    case Shares => NotAbove(row, s.lastSeq)
    case _ => false
  }

  predicate Forbids(s: State, e: Entry) {
    s.complete ||
    match e.name
    case CompletionMarker => e.row != Bool(true) || s.integrity.Null?
    case IntegrityReport => !s.integrity.Null?
    case DeferralCursor => !s.deferred.Null? || !e.row.Obj?
    case Accounting(kind) => !s.integrity.Null? || ForbidsRow(s, kind, e.row)
    case Unknown(_) => true
  }

  lemma BlockRefused(s: State, row: Json)
    ensures Refused(BlockRow(s, row)) <==> s.carryStarted
  {
  }

  lemma OrderRefused(s: State, row: Json)
    ensures Refused(NextOrder(s, row)) <==> NotAfter(row, s.carryOrder)
  {
    if Placed(row) && s.carryOrder.Some? {
      UnorderedAll(Place(row), s.carryOrder.value);
    }
  }

  lemma AmountRead(row: Json, field: string)
    ensures !Refused(Amount(row, field))
  {
  }

  lemma FieldsRead(row: Json)
    ensures !Refused(CarryFields(row))
  {
    AmountRead(row, "gross_amount_sats");
    AmountRead(row, "onchain_amount_sats");
  }

  lemma ChainRead(row: Json, prior: int, gross: int, onchain: int)
    ensures !Refused(OffChain(row, prior, gross, onchain))
  {
    AmountRead(row, "prior_balance_sats");
    AmountRead(row, "candidate_balance_sats");
    AmountRead(row, "carry_forward_balance_sats");
  }

  lemma JudgeRead(s: State, row: Json, c: Carry)
    ensures !Refused(JudgeUnmarked(s, row, c))
  {
    ChainRead(row, At(s.byProgram, c.program, 0), c.gross, c.onchain);
    ChainRead(row, At(s.byLabel, c.account, 0), c.gross, c.onchain);
  }

  lemma CarryRefused(p: Primitives, s: State, row: Json, canonical: Bytes)
    ensures Refused(CarryRow(p, s, row, canonical)) <==> NotAfter(row, s.carryOrder)
  {
    OrderRefused(s, row);
    FieldsRead(row);
    if NextOrder(s, row).Ok? && CarryFields(row).Ok? {
      JudgeRead(OpenCarry(p, s, row, canonical).value, row, CarryFields(row).value);
    }
  }

  lemma ShareRefused(p: Primitives, s: State, row: Json)
    ensures Refused(ShareRow(p, s, row)) <==> NotAbove(row, s.lastSeq)
  {
    var number := GetItem(row, "share_seq");
    if number.Ok? {
      UnorderedValues(number.value, s.lastSeq);
    }
  }

  lemma AccountRefused(p: Primitives, s: State, kind: Kind, row: Json, canonical: Bytes)
    ensures Refused(Account(p, s, kind, row, canonical)) <==> !s.integrity.Null? || ForbidsRow(s, kind, row)
  {
    var s1 := Hashed(s, kind, 1, canonical + [LF]);
    match kind
    case Blocks => BlockRefused(s1, row);
    case ActiveCarry => CarryRefused(p, s1, row, canonical);
    case Shares => ShareRefused(p, s1, row);
    case _ =>
  }

  /** A record is refused for its place exactly when the state forbids it. */
  lemma StepRefused(p: Primitives, s: State, e: Entry)
    ensures Refused(Step(p, s, e)) <==> Forbids(s, e)
  {
    if e.name.Accounting? {
      AccountRefused(p, s, e.name.kind, e.row, p.canonical(e.row));
    }
  }

  // ----- What the records forbid

  /** Record `n` breaks a rule the records before it set. */
  ghost predicate BreaksRule(entries: seq<Entry>, n: nat)
    requires n < |entries|
  {
    var e := entries[n];
    (exists i :: 0 <= i < n && Marker(entries[i])) ||
    match e.name
    case CompletionMarker => e.row != Bool(true) || forall i :: 0 <= i < n ==> !Integral(entries[i])
    case IntegrityReport => exists i :: 0 <= i < n && Integral(entries[i])
    case DeferralCursor => !e.row.Obj? || exists i :: 0 <= i < n && Cursor(entries[i])
    case Accounting(kind) => (exists i :: 0 <= i < n && Integral(entries[i])) || BreaksOrder(entries, n, kind)
    case Unknown(_) => true
  }

  ghost predicate BreaksOrder(entries: seq<Entry>, n: nat, kind: Kind)
    requires n < |entries|
  {
    match kind
    case Blocks => exists i :: 0 <= i < n && Is(entries[i], ActiveCarry)
    case ActiveCarry => NotAfter(entries[n].row, LastPlace(entries, n))
    case Shares =>
      Numbered(entries[n].row) &&
      (ShareNumber(entries[n].row) <= 0.0 ||
       exists i :: 0 <= i < n && AtLeast(entries[i], ShareNumber(entries[n].row)))
    case _ => false
  }

  predicate AtLeast(e: Entry, number: real) {
    Is(e, Shares) && Numbered(e.row) && ShareNumber(e.row) >= number
  }

  lemma ShareBreaks(s: State, entries: seq<Entry>, n: nat)
    requires n < |entries| && Remembers(s, entries, n) && SharesIncrease(entries, n)
    ensures NotAbove(entries[n].row, s.lastSeq) <==> BreaksOrder(entries, n, Shares)
  {
    LastBounds(entries, n);
    if Numbered(entries[n].row) && ShareNumber(entries[n].row) <= LastNumber(entries, n) {
      if LastNumber(entries, n) != 0.0 {
        var i :| 0 <= i < n && Is(entries[i], Shares) && ShareNumber(entries[i].row) == LastNumber(entries, n);
        assert AtLeast(entries[i], ShareNumber(entries[n].row));
      }
    }
  }

  lemma ForbidsIsBreaks(s: State, entries: seq<Entry>, n: nat)
    requires n < |entries| && Remembers(s, entries, n) && SharesIncrease(entries, n)
    ensures Forbids(s, entries[n]) <==> BreaksRule(entries, n)
  {
    ShareBreaks(s, entries, n);
  }

  /** After records that were taken, the next is refused for its place if and
      only if it breaks a rule, whether or not its own fields can be read. */
  lemma RefusedExactly(p: Primitives, entries: seq<Entry>, n: nat)
    requires n < |entries| && FeedTo(StepOf(p), entries, n).Ok?
    ensures Refused(FeedTo(StepOf(p), entries, n + 1)) <==> BreaksRule(entries, n)
  {
    var s := FeedTo(StepOf(p), entries, n).value;
    StepJudges(p);
    TakenKeepsRules(StepOf(p), ReadableIn(p), entries, n);
    ForbidsIsBreaks(s, entries, n);
    StepRefused(p, s, entries[n]);
  }
}
