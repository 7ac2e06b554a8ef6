/** The recovery-evidence summarizer's checks: one state machine over the
    export's records, as values here and as the object `Summary` below. */
module Evidence {
  import opened Basics
  import opened Values

  /** json.loads of a line: its value, the ValueError of text that is no
      JSON, or a failure outside the summarizer's own refusals. */
  datatype Parsed = Parsed(value: Json) | Malformed(message: string) | OutOfReach(about: string)

  /** What the checks call and this model leaves uninterpreted: `canonical` is
      the sorted compact encoding of a row, `textToInt` Python's int() of a
      string. */
  datatype Primitives = Primitives(
    parse: Bytes -> Parsed,
    canonical: Json -> Bytes,
    sha256: Bytes -> Bytes,
    textToInt: string -> Option<int>)

  /** The kinds that are hashed and counted. The first four are read further;
      `ShareHashes` is named because a deferral excludes it. */
  datatype Kind = Shares | Blocks | ActiveCarry | Candidates | ShareHashes | Other(name: string)

  const OTHER_KINDS: set<string> := {
    "share_sequence", "sequences", "audits", "audit_bodies", "audit_snapshots", "carry", "payouts",
    "candidate_balances", "ctv_sets", "ctv_artifacts", "ctv_checkpoints", "ctv_retry_progress",
    "ctv_broadcast_attempts", "cpfp_packages", "cpfp_retired_funding", "deferred_shares", "fatal_state",
    "fatal_state_events", "policy_transitions", "chain_checkpoint", "cluster_config", "payout_revision",
    "ledger_clock"
  }

  const KINDS: set<Kind> :=
    {Shares, Blocks, ActiveCarry, Candidates, ShareHashes} + (set name | name in OTHER_KINDS :: Other(name))

  /** What a record's kind names. */
  datatype Name = CompletionMarker | IntegrityReport | DeferralCursor | Accounting(kind: Kind) | Unknown(name: Json)

  /** Refuses a kind that cannot be looked up at all. */
  function NameOf(kind: Json): Result<Name> {
    var _ :- Hashable(kind);
    Ok(if !kind.Str? then Unknown(kind) else
       match kind.s
       case "complete" => CompletionMarker
       case "integrity" => IntegrityReport
       case "share_hashes_deferred" => DeferralCursor
       case "shares" => Accounting(Shares)
       case "blocks" => Accounting(Blocks)
       case "active_carry" => Accounting(ActiveCarry)
       case "candidates" => Accounting(Candidates)
       case "share_hashes" => Accounting(ShareHashes)
       case other => if other in OTHER_KINDS then Accounting(Other(other)) else Unknown(kind))
  }

  type Label = (Json, Json, Json)

  /** A kind or key a map lacks stands for its initial value: an empty hash
      input, a zero count, a zero balance. `integrity` and `deferred` are
      null until set, as they are None in the source. */
  datatype State = State(
    logs: map<Kind, Bytes>,
    counts: map<Kind, nat>,
    head: Bytes,
    lastSeq: Json,
    accepted: int,
    pending: nat,
    unfinished: nat,
    integrity: Json,
    complete: bool,
    marked: set<Json>,
    carryStarted: bool,
    carryOrder: Option<seq<Json>>,
    byProgram: map<Json, int>,
    byLabel: map<Label, int>,
    legacyBreaks: nat,
    labelBreaks: set<Json>,
    deferred: Json)

  const NO_HEAD: Bytes :=
    [0, 0, 0, 0, 0, 0, 0, 0, 0, 0, 0, 0, 0, 0, 0, 0, 0, 0, 0, 0, 0, 0, 0, 0, 0, 0, 0, 0, 0, 0, 0, 0]

  const INITIAL: State := State(
    map[], map[], NO_HEAD, Int(0), 0, 0, 0, Null, false, {}, false, None, map[], map[], 0, {}, Null)

  // ----- Reading one row

  /** An integer amount: an int that is no bool, or its decimal text. */
  function Amount(row: Json, field: string): Result<int> {
    var value :- GetItem(row, field);
    match value
    case Int(i) => Ok(i)
    case Str(s) => if IntegerText(s) then Ok(IntegerValue(s)) else Err(ValueError(NotAnAmount(field)))
    case _ => Err(ValueError(NotAnAmount(field)))
  }

  function IntOf(p: Primitives, v: Json): Result<int> {
    match v
    case Bool(b) => Ok(if b then 1 else 0)
    case Int(i) => Ok(i)
    case Float(r) => Ok(Truncate(r))
    case Str(s) => (match p.textToInt(s) case Some(n) => Ok(n) case None => Err(ValueError(NotAnIntegerLiteral)))
    case _ => Err(NotIntegral(TypeOf(v)))
  }

  /** A row's three balances against a running sum that stood at `prior`: the
      first that is off decides, and the rest are never looked at. */
  function OffChain(row: Json, prior: int, gross: int, onchain: int): Result<bool> {
    var first :- Amount(row, "prior_balance_sats");
    if first != prior then Ok(true) else
    var second :- Amount(row, "candidate_balance_sats");
    if second != prior + gross then Ok(true) else
    var third :- Amount(row, "carry_forward_balance_sats");
    Ok(third != prior + gross - onchain)
  }

  // ----- The checks

  /** Nothing may come after the completion marker, readable or not. */
  function Start(s: State): Result<State> {
    if s.complete then Err(ValueError(AfterCompletion)) else Ok(s)
  }

  /** Hash and count one run of rows. */
  function Hashed(s: State, kind: Kind, count: nat, blob: Bytes): State {
    s.(logs := s.logs[kind := At(s.logs, kind, []) + blob],
       counts := s.counts[kind := At(s.counts, kind, 0) + count])
  }

  function BlockRow(s: State, row: Json): Result<State> {
    if s.carryStarted then Err(ValueError(BlockAfterCarry)) else
    var issued :- Get(row, "as_issued_audit_sha256");
    if issued.Null? then Ok(s) else
    var block :- GetItem(row, "block_hash");
    var key :- Hashable(block);
    Ok(s.(marked := s.marked + {key}))
  }

  datatype Carry = Carry(program: Json, account: Label, gross: int, onchain: int)

  /** The fields of a carry row, read in the order the source reads them. */
  function CarryFields(row: Json): Result<Carry> {
    var program :- GetItem(row, "p2mr_program_hex");
    var recipient :- GetItem(row, "recipient_id");
    var orderKey :- GetItem(row, "order_key");
    var gross :- Amount(row, "gross_amount_sats");
    var onchain :- Amount(row, "onchain_amount_sats");
    var programKey :- Hashable(program);
    var recipientKey :- Hashable(recipient);
    var orderKeyKey :- Hashable(orderKey);
    Ok(Carry(programKey, (recipientKey, orderKeyKey, programKey), gross, onchain))
  }

  /** Counts a broken program chain, and names a broken label chain's row. */
  function Flag(s: State, row: Json, offProgram: bool, offLabel: bool): Result<State> {
    var s1 := s.(legacyBreaks := s.legacyBreaks + if offProgram then 1 else 0);
    if !offLabel then Ok(s1) else
    var number :- GetItem(row, "carry_forward_seq");
    var key :- Hashable(number);
    Ok(s1.(labelBreaks := s1.labelBreaks + {key}))
  }

  /** The two chain rules, on a row whose block is not marked. */
  function Judge(s: State, row: Json, c: Carry): Result<State> {
    var offProgram :- OffChain(row, At(s.byProgram, c.program, 0), c.gross, c.onchain);
    var offLabel :- OffChain(row, At(s.byLabel, c.account, 0), c.gross, c.onchain);
    Flag(s, row, offProgram, offLabel)
  }

  /** The row's place in the chain, after every earlier row's. */
  function NextOrder(s: State, row: Json): Result<seq<Json>> {
    var height :- GetItem(row, "block_height");
    var number :- GetItem(row, "carry_forward_seq");
    var late :- if s.carryOrder.None? then Ok(false) else LeAll([height, number], s.carryOrder.value);
    if late then Err(ValueError(CarryOutOfOrder)) else Ok([height, number])
  }

  /** The chain rules judge a row only when its block is not marked. */
  function JudgeUnmarked(s: State, row: Json, c: Carry): Result<State> {
    var block :- GetItem(row, "block_hash");
    var key :- Hashable(block);
    if key in s.marked then Ok(s) else Judge(s, row, c)
  }

  function Post(s: State, c: Carry): State {
    s.(byProgram := s.byProgram[c.program := At(s.byProgram, c.program, 0) + c.gross - c.onchain],
       byLabel := s.byLabel[c.account := At(s.byLabel, c.account, 0) + c.gross - c.onchain])
  }

  /** A carry row extends the chain head before its balances are read. */
  function OpenCarry(p: Primitives, s: State, row: Json, canonical: Bytes): Result<State> {
    var order :- NextOrder(s, row);
    Ok(s.(carryStarted := true, head := p.sha256(s.head + canonical), carryOrder := Some(order)))
  }

  function SettleCarry(s: State, row: Json, c: Carry): Result<State> {
    var s1 :- JudgeUnmarked(s, row, c);
    Ok(Post(s1, c))
  }

  function CarryRow(p: Primitives, s: State, row: Json, canonical: Bytes): Result<State> {
    var s1 :- OpenCarry(p, s, row, canonical);
    var c :- CarryFields(row);
    SettleCarry(s1, row, c)
  }

  function ShareRow(p: Primitives, s: State, row: Json): Result<State> {
    var number :- GetItem(row, "share_seq");
    var late :- Le(number, s.lastSeq);
    if late then Err(ValueError(ShareOutOfOrder)) else
    var flag :- GetItem(row, "accepted");
    var n :- IntOf(p, flag);
    Ok(s.(lastSeq := number, accepted := s.accepted + n))
  }

  function CandidateRow(s: State, row: Json): Result<State> {
    var state :- GetItem(row, "state");
    Ok(s.(pending := s.pending + if state == Str("pending") then 1 else 0,
          unfinished := s.unfinished +
            if state in {Str("submitted"), Str("abandoned"), Str("orphaned")} then 0 else 1))
  }

  /** One row of a hashed kind. */
  function Account(p: Primitives, s: State, kind: Kind, row: Json, canonical: Bytes): Result<State> {
    if !s.integrity.Null? then Err(ValueError(AfterIntegrity)) else
    var s1 := Hashed(s, kind, 1, canonical + [LF]);
    match kind
    case Blocks => BlockRow(s1, row)
    case ActiveCarry => CarryRow(p, s1, row, canonical)
    case Shares => ShareRow(p, s1, row)
    case Candidates => CandidateRow(s1, row)
    case _ => Ok(s1)
  }

  function Complete(s: State, row: Json): Result<State> {
    if row != Bool(true) || s.integrity.Null?
    then Err(ValueError(BadCompletion))
    else Ok(s.(complete := true))
  }

  function Integrity(s: State, row: Json): Result<State> {
    if !s.integrity.Null? then Err(ValueError(DuplicateIntegrity)) else Ok(s.(integrity := row))
  }

  function Deferral(s: State, row: Json): Result<State> {
    if !s.deferred.Null? then Err(ValueError(DuplicateDeferral))
    else if !row.Obj? then Err(ValueError(DeferralNotObject))
    else Ok(s.(deferred := row))
  }

  /** What a record does by its name; its canonical form is made here unless a
      worker already made it. */
  function Record(p: Primitives, s: State, name: Name, row: Json, canonical: Option<Bytes>): Result<State> {
    match name
    case CompletionMarker => Complete(s, row)
    case IntegrityReport => Integrity(s, row)
    case DeferralCursor => Deferral(s, row)
    case Unknown(_) => Err(ValueError(UnknownKind))
    case Accounting(kind) =>
      Account(p, s, kind, row, if canonical.Some? then canonical.value else p.canonical(row))
  }

  /** The record on a line: what its kind names, and its row. */
  function Decode(p: Primitives, line: Bytes): Result<(Name, Json)> {
    var record :-
      match p.parse(line)
      case Parsed(value) => Ok(value)
      case Malformed(message) => Err(ValueError(NotJson(message)))
      case OutOfReach(about) => Err(Fatal(about));
    var kind :- GetItem(record, "kind");
    var row :- GetItem(record, "row");
    var name :- NameOf(kind);
    Ok((name, row))
  }

  function Line(p: Primitives, s: State, line: Bytes): Result<State> {
    var s1 :- Start(s);
    var record :- Decode(p, line);
    Record(p, s1, record.0, record.1, None)
  }

  function LineStep(p: Primitives): (State, Bytes) -> Result<State> {
    (s, line) => Line(p, s, line)
  }

  /** Every line in order, up to the first refusal. */
  function Feed(p: Primitives, s: State, lines: seq<Bytes>): Result<State> {
    Fold(LineStep(p), s, lines)
  }

  // ----- Runs of rows, from the parallel path

  function Rows(s: State, kind: Kind, count: nat, blob: Bytes): Result<State> {
    var s1 :- Start(s);
    if !s.integrity.Null? then Err(ValueError(AfterIntegrity))
    else Ok(Hashed(s1, kind, count, blob))
  }

  function ShareRun(s: State, count: nat, blob: Bytes, first: int, last: int, accepted: int): Result<State> {
    var s1 :- Rows(s, Shares, count, blob);
    var late :- Le(Int(first), s.lastSeq);
    if late then Err(ValueError(ShareOutOfOrder))
    else Ok(s1.(lastSeq := Int(last), accepted := s1.accepted + accepted))
  }

  // ----- The report

  datatype Note = LabelFindings(count: nat) | Deferred(nextSeq: Json, endSeq: Json)

  datatype Report = Report(
    records: map<Kind, (nat, Bytes)>,
    deferred: Json,
    acceptedShares: int,
    lastShareSeq: Json,
    pendingCandidates: nat,
    unfinishedCandidates: nat,
    auditHead: Bytes,
    integrity: Json,
    notes: seq<Note>)

  function IntField(integrity: Json, field: string): Result<int> {
    var value :- Get(integrity, field);
    if value.Int? then Ok(value.i) else Err(ValueError(IntegrityLacks(field)))
  }

  predicate Objects(findings: seq<Json>) {
    forall k :: 0 <= k < |findings| ==> findings[k].Obj?
  }

  function OnMarked(marked: set<Json>, finding: Json): Result<bool>
    requires finding.Obj?
  {
    var key :- Hashable(At(finding.m, "block_hash", Null));
    Ok(key in marked)
  }

  /** How many findings are the database's as-issued rule's: no carry row, or
      a marked block's. */
  function AsIssued(marked: set<Json>, findings: seq<Json>): Result<nat>
    requires Objects(findings)
  {
    if findings == [] then Ok(0) else
    var mine :- if At(findings[0].m, "carry_forward_seq", Null).Null? then Ok(true) else OnMarked(marked, findings[0]);
    var rest :- AsIssued(marked, findings[1..]);
    Ok((if mine then 1 else 0) + rest)
  }

  /** How many findings name a row the per-label rule does not break at. */
  function Unexplained(breaks: set<Json>, findings: seq<Json>): Result<nat>
    requires Objects(findings)
  {
    if findings == [] then Ok(0) else
    var number :- GetItem(findings[0], "carry_forward_seq");
    var key :- Hashable(number);
    var rest :- Unexplained(breaks, findings[1..]);
    Ok((if key in breaks then 0 else 1) + rest)
  }

  /** The database's findings, once the report's own shape holds. */
  function Findings(s: State): Result<seq<Json>>
    ensures Findings(s).Ok? ==> Objects(Findings(s).value)
  {
    if !s.complete then Err(ValueError(Incomplete))
    else if !s.integrity.Obj? then Err(ValueError(IntegrityNotObject))
    else
      var count :- IntField(s.integrity, "mismatch_count");
      var drift :- IntField(s.integrity, "current_drift_count");
      var checked :- IntField(s.integrity, "checked_active_rows");
      if drift != 0 then Err(ValueError(CurrentDrift))
      else if checked != At(s.counts, ActiveCarry, 0)
      then Err(ValueError(CarryCountDiffers))
      else
        var listed := if "mismatches" in s.integrity.m then s.integrity.m["mismatches"] else Arr([]);
        if !listed.Arr? || |listed.a| != count
        then Err(ValueError(MismatchesNotListed))
        else if !Objects(listed.a)
        then Err(ValueError(MismatchNotObject))
        else Ok(listed.a)
  }

  function Records(p: Primitives, s: State): map<Kind, (nat, Bytes)> {
    map k | k in KINDS :: (At(s.counts, k, 0), p.sha256(At(s.logs, k, [])))
  }

  function MakeReport(p: Primitives, s: State): Result<Report> {
    var findings :- Findings(s);
    var issued :- AsIssued(s.marked, findings);
    if issued > 0 then Err(ValueError(AsIssuedFindings(issued)))
    else if s.legacyBreaks > 0
    then Err(ValueError(LegacyBreaks(s.legacyBreaks)))
    else
      var unexplained :- Unexplained(s.labelBreaks, findings);
      if unexplained > 0
      then Err(ValueError(UnexplainedFindings(unexplained)))
      else if !s.deferred.Null? && At(s.counts, ShareHashes, 0) > 0
      then Err(ValueError(HashesBesideDeferral))
      else Ok(Report(
        Records(p, s),
        s.deferred, s.accepted, s.lastSeq, s.pending, s.unfinished, s.head,
        Obj(s.integrity.m["mismatch_count" := Int(0)]["mismatches" := Arr([])]),
        (if findings == [] then [] else [LabelFindings(|findings|)]) +
        (if !s.deferred.Obj? then [] else
         [Deferred(At(s.deferred.m, "next_seq", Null), At(s.deferred.m, "end_seq", Null))])))
  }

  /** The serial summarizer. */
  function Summarize(p: Primitives, lines: seq<Bytes>): Result<Report> {
    var s :- Feed(p, INITIAL, lines);
    MakeReport(p, s)
  }
}
