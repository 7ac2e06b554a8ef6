/** One export that is accepted: one carry row, the integrity report and the
    completion marker. What acceptance implies is therefore not about nothing. */
module Sample {
  import opened Basics
  import opened Values
  import opened Evidence
  import opened Structure
  import opened Totals
  import L = CarryLedger

  const CARRY_FIELDS: map<string, Json> := map[
    "block_height" := Int(1),
    "carry_forward_seq" := Int(1),
    "p2mr_program_hex" := Str("p"),
    "recipient_id" := Str("r"),
    "order_key" := Str("k"),
    "gross_amount_sats" := Int(5),
    "onchain_amount_sats" := Int(2),
    "block_hash" := Str("b"),
    "prior_balance_sats" := Int(0),
    "candidate_balance_sats" := Int(5),
    "carry_forward_balance_sats" := Int(3)]

  const CARRY := Obj(CARRY_FIELDS)

  const REPORT_FIELDS: map<string, Json> := map[
    "mismatch_count" := Int(0),
    "current_drift_count" := Int(0),
    "checked_active_rows" := Int(1)]

  const REPORT := Obj(REPORT_FIELDS)

  function RecordOf(kind: string, row: Json): Json {
    Obj(map["kind" := Str(kind), "row" := row])
  }

  /** A reader of these three lines; nothing else about it matters. */
  function Reader(canonical: Json -> Bytes, sha256: Bytes -> Bytes, textToInt: string -> Option<int>): Primitives {
    Primitives(
      (line: Bytes) =>
        if line == [1] then Parsed(RecordOf("active_carry", CARRY))
        else if line == [2] then Parsed(RecordOf("integrity", REPORT))
        else Parsed(RecordOf("complete", Bool(true))),
      canonical, sha256, textToInt)
  }

  const LINES: seq<Bytes> := [[1], [2], [3]]

  const ENTRIES: seq<Entry> :=
    [Entry(Accounting(ActiveCarry), CARRY), Entry(IntegrityReport, REPORT), Entry(CompletionMarker, Bool(true))]

  lemma Decoded(p: Primitives, line: Bytes, kind: string, row: Json, name: Name)
    requires p.parse(line) == Parsed(RecordOf(kind, row)) && NameOf(Str(kind)) == Ok(name)
    ensures Decode(p, line) == Ok((name, row))
  {
    var record := RecordOf(kind, row);
    assert GetItem(record, "kind") == Ok(Str(kind));
    assert GetItem(record, "row") == Ok(row);
  }

  lemma Names()
    ensures NameOf(Str("active_carry")) == Ok(Accounting(ActiveCarry))
    ensures NameOf(Str("integrity")) == Ok(IntegrityReport)
    ensures NameOf(Str("complete")) == Ok(CompletionMarker)
  {
  }

  lemma LinesHold(p: Primitives, canonical: Json -> Bytes, sha256: Bytes -> Bytes, textToInt: string -> Option<int>)
    requires p == Reader(canonical, sha256, textToInt)
    ensures Structure.Holds(p, LINES, ENTRIES)
  {
    Names();
    assert [1 as byte] != [2 as byte] && [1 as byte] != [3 as byte] && [2 as byte] != [3 as byte] by {
      assert [1 as byte][0] != [2 as byte][0] && [1 as byte][0] != [3 as byte][0] && [2 as byte][0] != [3 as byte][0];
    }
    Decoded(p, [1], "active_carry", CARRY, Accounting(ActiveCarry));
    Decoded(p, [2], "integrity", REPORT, IntegrityReport);
    Decoded(p, [3], "complete", Bool(true), CompletionMarker);
  }

  lemma CarryReads()
    ensures GetItem(CARRY, "block_height") == Ok(Int(1)) && GetItem(CARRY, "carry_forward_seq") == Ok(Int(1))
    ensures GetItem(CARRY, "block_hash") == Ok(Str("b"))
    ensures GetItem(CARRY, "p2mr_program_hex") == Ok(Str("p")) && GetItem(CARRY, "recipient_id") == Ok(Str("r"))
    ensures GetItem(CARRY, "order_key") == Ok(Str("k"))
  {
  }

  lemma CarryAmounts()
    ensures Amount(CARRY, "gross_amount_sats") == Ok(5) && Amount(CARRY, "onchain_amount_sats") == Ok(2)
    ensures Amount(CARRY, "prior_balance_sats") == Ok(0) && Amount(CARRY, "candidate_balance_sats") == Ok(5)
    ensures Amount(CARRY, "carry_forward_balance_sats") == Ok(3)
  {
  }

  lemma CarryIsRead()
    ensures CarryFields(CARRY) == Ok(Carry(Str("p"), (Str("r"), Str("k"), Str("p")), 5, 2)) && ReadableCarry(CARRY)
  {
    CarryReads();
    CarryAmounts();
  }

  lemma KeepsRules()
    ensures Structured(ENTRIES, 3)
  {
    CarryReads();
    forall i | 0 <= i < 3 ensures MayFollow(ENTRIES, i) {
      assert Integral(ENTRIES[1]);
    }
  }

  lemma Taken(p: Primitives)
    ensures FeedTo(StepOf(p), ENTRIES, 3).Ok?
  {
    KeepsRules();
    CarryIsRead();
    TakenExactly(p, ENTRIES);
  }

  /** The two last records set the report and the marker and nothing else. */
  lemma LastTwo(p: Primitives)
    ensures FeedTo(StepOf(p), ENTRIES, 3).Ok?
    ensures var s := FeedTo(StepOf(p), ENTRIES, 3).value; s.integrity == REPORT && s.complete && s.deferred.Null?
  {
    Taken(p);
    var one, two, three := FeedTo(StepOf(p), ENTRIES, 1), FeedTo(StepOf(p), ENTRIES, 2), FeedTo(StepOf(p), ENTRIES, 3);
    assert three == Step(p, two.value, ENTRIES[2]);
    assert two == Step(p, one.value, ENTRIES[1]);
    assert two.value.integrity == REPORT;
    TakenIsStructured(p, ENTRIES);
  }

  lemma OneCarryRow(p: Primitives)
    requires Structure.Holds(p, LINES, ENTRIES)
    ensures L.CarryRowsOf(p, LINES) == [CARRY] && L.MarkedOf(p, LINES) == {}
  {
    assert LINES[..2] == [[1], [2]] && LINES[..2][..1] == [[1]] && [[1 as byte]][..0] == [];
    assert Decode(p, LINES[0]) == Ok((Accounting(ActiveCarry), CARRY));
    assert L.CarryRowsOf(p, [[1]]) == [CARRY];
    assert L.CarryRowsOf(p, [[1], [2]]) == [CARRY];
  }

  lemma NoBreak(p: Primitives)
    requires Structure.Holds(p, LINES, ENTRIES) && Feed(p, INITIAL, LINES).Ok?
    ensures Feed(p, INITIAL, LINES).value.legacyBreaks == 0
  {
    OneCarryRow(p);
    CarryIsRead();
    CarryAmounts();
    var rows := L.CarryRowsOf(p, LINES);
    assert rows[..0] == [] && L.ProgramNet([], L.Fields(CARRY).program) == 0;
    assert L.OnChain(CARRY, 0);
    L.ProgramChains(p, LINES);
  }

  lemma ReportReads()
    ensures Get(REPORT, "mismatch_count") == Ok(Int(0)) && Get(REPORT, "current_drift_count") == Ok(Int(0))
    ensures Get(REPORT, "checked_active_rows") == Ok(Int(1)) && "mismatches" !in REPORT_FIELDS
  {
  }

  lemma CleanReport(p: Primitives, s: State)
    requires s.complete && s.integrity == REPORT && s.deferred.Null?
    requires s.legacyBreaks == 0 && At(s.counts, ActiveCarry, 0) == 1
    ensures MakeReport(p, s).Ok?
  {
    ReportReads();
    assert Findings(s) == Ok([]);
  }

  lemma CarryCount()
    ensures CountOf(ENTRIES, 3, ActiveCarry) == 1
  {
    assert CountOf(ENTRIES, 1, ActiveCarry) == CountOf(ENTRIES, 0, ActiveCarry) + 1;
    assert CountOf(ENTRIES, 2, ActiveCarry) == 1;
  }

  lemma OneCounted(p: Primitives)
    requires FeedTo(StepOf(p), ENTRIES, 3).Ok?
    ensures At(FeedTo(StepOf(p), ENTRIES, 3).value.counts, ActiveCarry, 0) == 1
  {
    FedTotals(p, ENTRIES);
    CarryCount();
  }

  lemma Fed(p: Primitives)
    requires Structure.Holds(p, LINES, ENTRIES)
    ensures Feed(p, INITIAL, LINES).Ok?
    ensures var s := Feed(p, INITIAL, LINES).value;
            s.integrity == REPORT && s.complete && s.deferred.Null? && At(s.counts, ActiveCarry, 0) == 1
  {
    LinesAreRecords(p, LINES, ENTRIES);
    LastTwo(p);
    OneCounted(p);
  }

  /** The sample is accepted. */
  lemma SampleIsAccepted(p: Primitives)
    requires Structure.Holds(p, LINES, ENTRIES)
    ensures Summarize(p, LINES).Ok?
  {
    Fed(p);
    NoBreak(p);
    CleanReport(p, Feed(p, INITIAL, LINES).value);
  }

  /** Some export is accepted whose carry row acceptance vouches for. */
  lemma SomeExportIsAccepted(canonical: Json -> Bytes, sha256: Bytes -> Bytes, textToInt: string -> Option<int>)
    ensures var p := Reader(canonical, sha256, textToInt);
            && Structure.Holds(p, LINES, ENTRIES) && Summarize(p, LINES).Ok?
            && L.CarryRowsOf(p, LINES) == [CARRY] && L.Unmarked(CARRY, L.MarkedOf(p, LINES))
  {
    var p := Reader(canonical, sha256, textToInt);
    LinesHold(p, canonical, sha256, textToInt);
    SampleIsAccepted(p);
    OneCarryRow(p);
    CarryReads();
  }
}
