/** The summarizer's object: every check, applied to its fields in file order.
    Each method is proved against the step function of the same name. A method
    that refuses leaves the object half updated, as a raised exception does;
    nothing reads it afterwards. */
module Summarizer {
  import opened Basics
  import opened Values
  import E = Evidence
  import opened EvidenceTypes = Evidence

  class Summary {
    const p: Primitives
    var logs: map<Kind, Bytes>
    var counts: map<Kind, nat>
    var head: Bytes
    var lastSeq: Json
    var accepted: int
    var pending: nat
    var unfinished: nat
    var integrity: Json
    var complete: bool
    var marked: set<Json>
    var carryStarted: bool
    var carryOrder: Option<seq<Json>>
    var byProgram: map<Json, int>
    var byLabel: map<Label, int>
    var legacyBreaks: nat
    var labelBreaks: set<Json>
    var deferred: Json

    function View(): State
      reads this
    {
      State(logs, counts, head, lastSeq, accepted, pending, unfinished, integrity, complete, marked,
            carryStarted, carryOrder, byProgram, byLabel, legacyBreaks, labelBreaks, deferred)
    }

    /** The object did what `step` says: it holds the new state, or the call
        raised the same refusal. */
    ghost predicate Did(r: Result<()>, step: Result<State>)
      reads this
    {
      match step
      case Ok(s) => r.Ok? && View() == s
      case Err(e) => r == Err(e)
    }

    constructor (p: Primitives)
      ensures View() == INITIAL && this.p == p
    {
      this.p := p;
      logs, counts, head := map[], map[], NO_HEAD;
      lastSeq, accepted, pending, unfinished := Int(0), 0, 0, 0;
      integrity, complete := Null, false;
      marked, carryStarted, carryOrder := {}, false, None;
      byProgram, byLabel := map[], map[];
      legacyBreaks, labelBreaks := 0, {};
      deferred := Null;
    }

    method Start() returns (r: Result<()>)
      ensures Did(r, E.Start(View()))
    {
      return if complete then Err(ValueError(AfterCompletion)) else Ok(());
    }

    method Hash(kind: Kind, count: nat, blob: Bytes)
      modifies this
      ensures View() == E.Hashed(old(View()), kind, count, blob)
    {
      logs := logs[kind := At(logs, kind, []) + blob];
      counts := counts[kind := At(counts, kind, 0) + count];
    }

    method BlockRow(row: Json) returns (r: Result<()>)
      modifies this
      ensures Did(r, E.BlockRow(old(View()), row))
    {
      if carryStarted {
        return Err(ValueError(BlockAfterCarry));
      }
      var issued :- Get(row, "as_issued_audit_sha256");
      if !issued.Null? {
        var block :- GetItem(row, "block_hash");
        var key :- Hashable(block);
        marked := marked + {key};
      }
      return Ok(());
    }

    method Judge(row: Json, c: Carry) returns (r: Result<()>)
      modifies this
      ensures Did(r, E.Judge(old(View()), row, c))
    {
      var offProgram :- OffChain(row, At(byProgram, c.program, 0), c.gross, c.onchain);
      if offProgram {
        legacyBreaks := legacyBreaks + 1;
      }
      var offLabel :- OffChain(row, At(byLabel, c.account, 0), c.gross, c.onchain);
      if offLabel {
        var number :- GetItem(row, "carry_forward_seq");
        var key :- Hashable(number);
        labelBreaks := labelBreaks + {key};
      }
      return Ok(());
    }

    method JudgeUnmarked(row: Json, c: Carry) returns (r: Result<()>)
      modifies this
      ensures Did(r, E.JudgeUnmarked(old(View()), row, c))
    {
      var block :- GetItem(row, "block_hash");
      var key :- Hashable(block);
      if key in marked {
        return Ok(());
      }
      r := Judge(row, c);
    }

    method OpenCarry(row: Json, canonical: Bytes) returns (r: Result<()>)
      modifies this
      ensures Did(r, E.OpenCarry(p, old(View()), row, canonical))
    {
      carryStarted := true;
      head := p.sha256(head + canonical);
      var order :- NextOrder(View(), row);
      carryOrder := Some(order);
      return Ok(());
    }

    method Post(c: Carry)
      modifies this
      ensures View() == E.Post(old(View()), c)
    {
      byProgram := byProgram[c.program := At(byProgram, c.program, 0) + c.gross - c.onchain];
      byLabel := byLabel[c.account := At(byLabel, c.account, 0) + c.gross - c.onchain];
    }

    method SettleCarry(row: Json, c: Carry) returns (r: Result<()>)
      modifies this
      ensures Did(r, E.SettleCarry(old(View()), row, c))
    {
      var _ :- JudgeUnmarked(row, c);
      Post(c);
      return Ok(());
    }

    method CarryRow(row: Json, canonical: Bytes) returns (r: Result<()>)
      modifies this
      ensures Did(r, E.CarryRow(p, old(View()), row, canonical))
    {
      var _ :- OpenCarry(row, canonical);
      var c :- CarryFields(row);
      r := SettleCarry(row, c);
    }

    method ShareRow(row: Json) returns (r: Result<()>)
      modifies this
      ensures Did(r, E.ShareRow(p, old(View()), row))
    {
      var number :- GetItem(row, "share_seq");
      var late :- Le(number, lastSeq);
      if late {
        return Err(ValueError(ShareOutOfOrder));
      }
      lastSeq := number;
      var flag :- GetItem(row, "accepted");
      var n :- IntOf(p, flag);
      accepted := accepted + n;
      return Ok(());
    }

    method CandidateRow(row: Json) returns (r: Result<()>)
      modifies this
      ensures Did(r, E.CandidateRow(old(View()), row))
    {
      var state :- GetItem(row, "state");
      if state == Str("pending") {
        pending := pending + 1;
      }
      if state !in {Str("submitted"), Str("abandoned"), Str("orphaned")} {
        unfinished := unfinished + 1;
      }
      return Ok(());
    }

    method Account(kind: Kind, row: Json, canonical: Bytes) returns (r: Result<()>)
      modifies this
      ensures Did(r, E.Account(p, old(View()), kind, row, canonical))
    {
      if !integrity.Null? {
        return Err(ValueError(AfterIntegrity));
      }
      Hash(kind, 1, canonical + [LF]);
      match kind
      case Blocks => r := BlockRow(row);
      case ActiveCarry => r := CarryRow(row, canonical);
      case Shares => r := ShareRow(row);
      case Candidates => r := CandidateRow(row);
      case _ => r := Ok(());
    }

    method Record(name: Name, row: Json, canonical: Option<Bytes>) returns (r: Result<()>)
      modifies this
      ensures Did(r, E.Record(p, old(View()), name, row, canonical))
    {
      match name
      case CompletionMarker =>
        if row != Bool(true) || integrity.Null? {
          return Err(ValueError(BadCompletion));
        }
        complete := true;
        return Ok(());
      case IntegrityReport =>
        if !integrity.Null? {
          return Err(ValueError(DuplicateIntegrity));
        }
        integrity := row;
        return Ok(());
      case DeferralCursor =>
        if !deferred.Null? {
          return Err(ValueError(DuplicateDeferral));
        }
        if !row.Obj? {
          return Err(ValueError(DeferralNotObject));
        }
        deferred := row;
        return Ok(());
      case Unknown(_) =>
        return Err(ValueError(UnknownKind));
      case Accounting(kind) =>
        r := Account(kind, row, if canonical.Some? then canonical.value else p.canonical(row));
    }

    method Line(line: Bytes) returns (r: Result<()>)
      modifies this
      ensures Did(r, E.Line(p, old(View()), line))
    {
      var _ :- Start();
      var record :- Decode(p, line);
      r := Record(record.0, record.1, None);
    }

    method Rows(kind: Kind, count: nat, blob: Bytes) returns (r: Result<()>)
      modifies this
      ensures Did(r, E.Rows(old(View()), kind, count, blob))
    {
      var _ :- Start();
      if !integrity.Null? {
        return Err(ValueError(AfterIntegrity));
      }
      Hash(kind, count, blob);
      return Ok(());
    }

    method ShareRun(count: nat, blob: Bytes, first: int, last: int, sum: int) returns (r: Result<()>)
      modifies this
      ensures Did(r, E.ShareRun(old(View()), count, blob, first, last, sum))
    {
      var _ :- Rows(Shares, count, blob);
      var late :- Le(Int(first), lastSeq);
      if late {
        return Err(ValueError(ShareOutOfOrder));
      }
      lastSeq := Int(last);
      accepted := accepted + sum;
      return Ok(());
    }
  }
}
