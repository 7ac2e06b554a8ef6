/** What an accepted report says about the carry-forward ledger: the balances
    the summarizer keeps row by row, against sums over the whole export. */
module CarryLedger {
  import opened Basics
  import opened Values
  import opened Evidence

  // ----- The export's carry rows and marked blocks, read off its lines

  function CarryRowsOf(p: Primitives, lines: seq<Bytes>): seq<Json>
    decreases |lines|
  {
    if lines == [] then [] else
    var before := CarryRowsOf(p, lines[..|lines| - 1]);
    match Decode(p, lines[|lines| - 1])
    case Ok((Accounting(ActiveCarry), row)) => before + [row]
    case _ => before
  }

  function MarkedBy(row: Json): set<Json> {
    match Get(row, "as_issued_audit_sha256")
    case Ok(issued) =>
      if issued.Null? then {} else
      (match GetItem(row, "block_hash")
       case Ok(block) => {Plain(block)}
       case Err(_) => {})
    case Err(_) => {}
  }

  function MarkedOf(p: Primitives, lines: seq<Bytes>): set<Json>
    decreases |lines|
  {
    if lines == [] then {} else
    var before := MarkedOf(p, lines[..|lines| - 1]);
    match Decode(p, lines[|lines| - 1])
    case Ok((Accounting(Blocks), row)) => before + MarkedBy(row)
    case _ => before
  }

  // ----- The reference: sums over all earlier rows

  function Fields(row: Json): Carry {
    match CarryFields(row)
    case Ok(c) => c
    case Err(_) => Carry(Null, (Null, Null, Null), 0, 0)
  }

  function Net(row: Json): int { Fields(row).gross - Fields(row).onchain }

  function ProgramNet(rows: seq<Json>, program: Json): int {
    if rows == [] then 0 else
    var last := rows[|rows| - 1];
    ProgramNet(rows[..|rows| - 1], program) + if Fields(last).program == program then Net(last) else 0
  }

  function LabelNet(rows: seq<Json>, account: Label): int {
    if rows == [] then 0 else
    var last := rows[|rows| - 1];
    LabelNet(rows[..|rows| - 1], account) + if Fields(last).account == account then Net(last) else 0
  }

  /** The row's three stored balances are a chain's at `prior`. */
  predicate OnChain(row: Json, prior: int) {
    && Amount(row, "prior_balance_sats") == Ok(prior)
    && Amount(row, "candidate_balance_sats") == Ok(prior + Fields(row).gross)
    && Amount(row, "carry_forward_balance_sats") == Ok(prior + Net(row))
  }

  predicate Unmarked(row: Json, marked: set<Json>) {
    var block := GetItem(row, "block_hash");
    block.Ok? && Plain(block.value) !in marked
  }

  function SeqKey(row: Json): Json {
    match GetItem(row, "carry_forward_seq")
    case Ok(number) => Plain(number)
    case Err(_) => Null
  }

  /** Row `i` breaks the chain of everything its payout program carried. */
  predicate BreaksProgram(rows: seq<Json>, marked: set<Json>, i: nat)
    requires i < |rows|
  {
    Unmarked(rows[i], marked) && !OnChain(rows[i], ProgramNet(rows[..i], Fields(rows[i]).program))
  }

  predicate BreaksLabel(rows: seq<Json>, marked: set<Json>, i: nat)
    requires i < |rows|
  {
    Unmarked(rows[i], marked) && !OnChain(rows[i], LabelNet(rows[..i], Fields(rows[i]).account))
  }

  // ----- The summarizer's balances are those sums

  ghost predicate Mirrors(s: State, rows: seq<Json>, marked: set<Json>) {
    && s.marked == marked
    && (s.carryStarted <==> rows != [])
    && BalancesMirror(s, rows)
    && (s.legacyBreaks == 0 <==> forall i :: 0 <= i < |rows| ==> !BreaksProgram(rows, marked, i))
    && BreaksMirror(s.labelBreaks, rows, marked)
  }

  ghost predicate BalancesMirror(s: State, rows: seq<Json>) {
    && (forall program :: At(s.byProgram, program, 0) == ProgramNet(rows, program))
    && (forall account :: At(s.byLabel, account, 0) == LabelNet(rows, account))
  }

  ghost predicate BreaksMirror(breaks: set<Json>, rows: seq<Json>, marked: set<Json>) {
    && (forall key :: key in breaks ==>
          exists i :: 0 <= i < |rows| && BreaksLabel(rows, marked, i) && SeqKey(rows[i]) == key)
    && (forall i :: 0 <= i < |rows| && BreaksLabel(rows, marked, i) ==> SeqKey(rows[i]) in breaks)
  }

  lemma OffChainIs(row: Json, prior: int)
    requires CarryFields(row).Ok?
    ensures var off := OffChain(row, prior, Fields(row).gross, Fields(row).onchain);
            off.Ok? ==> (off.value <==> !OnChain(row, prior))
  {
  }

  lemma FlagIs(s: State, row: Json, offProgram: bool, offLabel: bool)
    requires Flag(s, row, offProgram, offLabel).Ok?
    ensures Flag(s, row, offProgram, offLabel).value == s.(
              legacyBreaks := s.legacyBreaks + if offProgram then 1 else 0,
              labelBreaks := s.labelBreaks + if offLabel then {SeqKey(row)} else {})
  {
  }

  /** One row's judgement, as a relation between the states around it. */
  lemma JudgeIs(s: State, row: Json, c: Carry)
    requires CarryFields(row) == Ok(c) && JudgeUnmarked(s, row, c).Ok?
    ensures var open := Unmarked(row, s.marked);
            JudgeUnmarked(s, row, c).value == s.(
              legacyBreaks := s.legacyBreaks +
                if open && !OnChain(row, At(s.byProgram, c.program, 0)) then 1 else 0,
              labelBreaks := s.labelBreaks +
                if open && !OnChain(row, At(s.byLabel, c.account, 0)) then {SeqKey(row)} else {})
  {
    if Unmarked(row, s.marked) {
      var offProgram := OffChain(row, At(s.byProgram, c.program, 0), c.gross, c.onchain);
      var offLabel := OffChain(row, At(s.byLabel, c.account, 0), c.gross, c.onchain);
      FlagIs(s, row, offProgram.value, offLabel.value);
      OffChainIs(row, At(s.byProgram, c.program, 0));
      OffChainIs(row, At(s.byLabel, c.account, 0));
    }
  }

  /** A carry row's effect on everything the ledger keeps. */
  ghost predicate Effect(s: State, t: State, row: Json) {
    var c := Fields(row);
    && t.marked == s.marked && t.carryStarted
    && t.byProgram == s.byProgram[c.program := At(s.byProgram, c.program, 0) + Net(row)]
    && t.byLabel == s.byLabel[c.account := At(s.byLabel, c.account, 0) + Net(row)]
    && t.legacyBreaks == s.legacyBreaks +
         (if Unmarked(row, s.marked) && !OnChain(row, At(s.byProgram, c.program, 0)) then 1 else 0)
    && t.labelBreaks == s.labelBreaks +
         (if Unmarked(row, s.marked) && !OnChain(row, At(s.byLabel, c.account, 0)) then {SeqKey(row)} else {})
  }

  lemma CarryIs(p: Primitives, s: State, row: Json, canonical: Bytes)
    requires CarryRow(p, s, row, canonical).Ok?
    ensures Effect(s, CarryRow(p, s, row, canonical).value, row)
  {
    var open := OpenCarry(p, s, row, canonical).value;
    SettleIs(open, row);
    EffectFrom(s, open, CarryRow(p, s, row, canonical).value, row);
  }

  /** Opening a carry row moves none of the balances. */
  lemma EffectFrom(s: State, open: State, t: State, row: Json)
    requires Effect(open, t, row) && open.marked == s.marked
    requires open.byProgram == s.byProgram && open.byLabel == s.byLabel
    requires open.legacyBreaks == s.legacyBreaks && open.labelBreaks == s.labelBreaks
    ensures Effect(s, t, row)
  {
  }

  lemma SettleIs(s: State, row: Json)
    requires CarryFields(row).Ok? && s.carryStarted && SettleCarry(s, row, CarryFields(row).value).Ok?
    ensures Effect(s, SettleCarry(s, row, CarryFields(row).value).value, row)
  {
    JudgeIs(s, row, CarryFields(row).value);
  }

  lemma EffectKeeps(s: State, t: State, row: Json, rows: seq<Json>)
    requires Mirrors(s, rows, s.marked) && Effect(s, t, row)
    ensures Mirrors(t, rows + [row], s.marked)
  {
    var all := rows + [row];
    assert all[..|rows|] == rows && all[|rows|] == row;
    Earlier(rows, row, s.marked);
    BalancesKept(s, t, row, rows);
    assert BreaksProgram(all, s.marked, |rows|) <==>
           Unmarked(row, s.marked) && !OnChain(row, At(s.byProgram, Fields(row).program, 0));
    BreaksKept(s.labelBreaks, t.labelBreaks, rows, row, s.marked);
  }

  /** Posting to one key of a map that holds sums keeps it holding sums. */
  lemma Posted<K(!new)>(m: map<K, int>, key: K, net: int, before: K -> int, after: K -> int)
    requires forall k :: At(m, k, 0) == before(k)
    requires forall k :: after(k) == before(k) + if k == key then net else 0
    ensures forall k :: At(m[key := At(m, key, 0) + net], k, 0) == after(k)
  {
  }

  lemma NetGrows(rows: seq<Json>, row: Json, program: Json, account: Label)
    ensures ProgramNet(rows + [row], program) ==
            ProgramNet(rows, program) + if program == Fields(row).program then Net(row) else 0
    ensures LabelNet(rows + [row], account) ==
            LabelNet(rows, account) + if account == Fields(row).account then Net(row) else 0
  {
    var all := rows + [row];
    assert all[..|all| - 1] == rows;
  }

  lemma BalancesKept(s: State, t: State, row: Json, rows: seq<Json>)
    requires BalancesMirror(s, rows) && Effect(s, t, row)
    ensures BalancesMirror(t, rows + [row])
  {
    var c, all := Fields(row), rows + [row];
    forall program, account {
      NetGrows(rows, row, program, account);
    }
    Posted(s.byProgram, c.program, Net(row), k => ProgramNet(rows, k), k => ProgramNet(all, k));
    Posted(s.byLabel, c.account, Net(row), k => LabelNet(rows, k), k => LabelNet(all, k));
  }

  lemma BreaksKept(before: set<Json>, after: set<Json>, rows: seq<Json>, row: Json, marked: set<Json>)
    requires BreaksMirror(before, rows, marked)
    requires (rows + [row])[..|rows|] == rows
    requires after == before + if BreaksLabel(rows + [row], marked, |rows|) then {SeqKey(row)} else {}
    ensures BreaksMirror(after, rows + [row], marked)
  {
    var all := rows + [row];
    Earlier(rows, row, marked);
    forall key | key in after
      ensures exists i :: 0 <= i < |all| && BreaksLabel(all, marked, i) && SeqKey(all[i]) == key
    {
      if key in before {
        var i :| 0 <= i < |rows| && BreaksLabel(rows, marked, i) && SeqKey(rows[i]) == key;
        assert all[i] == rows[i];
      } else {
        assert BreaksLabel(all, marked, |rows|) && all[|rows|] == row;
      }
    }
  }

  /** A later row changes no earlier row's judgement. */
  lemma Earlier(rows: seq<Json>, row: Json, marked: set<Json>)
    ensures forall i :: 0 <= i < |rows| ==>
              && BreaksProgram(rows + [row], marked, i) == BreaksProgram(rows, marked, i)
              && BreaksLabel(rows + [row], marked, i) == BreaksLabel(rows, marked, i)
  {
    forall i | 0 <= i < |rows|
      ensures BreaksProgram(rows + [row], marked, i) == BreaksProgram(rows, marked, i)
      ensures BreaksLabel(rows + [row], marked, i) == BreaksLabel(rows, marked, i)
    {
      assert (rows + [row])[..i] == rows[..i];
    }
  }

  lemma {:induction false} FeedMirrors(p: Primitives, lines: seq<Bytes>)
    requires Feed(p, INITIAL, lines).Ok?
    ensures Mirrors(Feed(p, INITIAL, lines).value, CarryRowsOf(p, lines), MarkedOf(p, lines))
    decreases |lines|
  {
    if lines != [] {
      var most, line := lines[..|lines| - 1], lines[|lines| - 1];
      FeedMirrors(p, most);
      var s := Feed(p, INITIAL, most).value;
      LineKeeps(p, s, most, line);
    }
  }

  /** One more line, read off the export. */
  lemma ReadLast(p: Primitives, most: seq<Bytes>, line: Bytes)
    requires Decode(p, line).Ok?
    ensures var (name, row) := Decode(p, line).value;
            && CarryRowsOf(p, most + [line]) ==
                 CarryRowsOf(p, most) + (if name == Accounting(ActiveCarry) then [row] else [])
            && MarkedOf(p, most + [line]) ==
                 MarkedOf(p, most) + (if name == Accounting(Blocks) then MarkedBy(row) else {})
  {
    var lines := most + [line];
    assert lines[..|lines| - 1] == most && lines[|lines| - 1] == line;
  }

  lemma LineKeeps(p: Primitives, s: State, most: seq<Bytes>, line: Bytes)
    requires Mirrors(s, CarryRowsOf(p, most), MarkedOf(p, most)) && Line(p, s, line).Ok?
    ensures Mirrors(Line(p, s, line).value, CarryRowsOf(p, most + [line]), MarkedOf(p, most + [line]))
  {
    var (name, row) := Decode(p, line).value;
    ReadLast(p, most, line);
    if name == Accounting(ActiveCarry) {
      CarryLineKeeps(p, s, line, row, CarryRowsOf(p, most));
    } else {
      OtherLine(p, s, line);
      OtherKeeps(s, Line(p, s, line).value, CarryRowsOf(p, most), name == Accounting(Blocks), MarkedBy(row));
    }
  }

  /** Blocks may only be marked while there is no carry row to judge. */
  lemma OtherKeeps(s: State, t: State, rows: seq<Json>, block: bool, marks: set<Json>)
    requires Mirrors(s, rows, s.marked) && SameBalances(s, t)
    requires t.marked == s.marked + (if block then marks else {}) && (block ==> !s.carryStarted)
    ensures Mirrors(t, rows, t.marked)
  {
    if block {
      assert rows == [];
    } else {
      assert t.marked == s.marked;
    }
  }

  predicate SameBalances(s: State, t: State) {
    && t.carryStarted == s.carryStarted && t.byProgram == s.byProgram && t.byLabel == s.byLabel
    && t.legacyBreaks == s.legacyBreaks && t.labelBreaks == s.labelBreaks
  }

  lemma CarryLineKeeps(p: Primitives, s: State, line: Bytes, row: Json, rows: seq<Json>)
    requires Mirrors(s, rows, s.marked) && Line(p, s, line).Ok? && Decode(p, line) == Ok((Accounting(ActiveCarry), row))
    ensures Mirrors(Line(p, s, line).value, rows + [row], s.marked)
  {
    var canonical := p.canonical(row);
    var s1 := Hashed(s, ActiveCarry, 1, canonical + [LF]);
    CarryIs(p, s1, row, canonical);
    EffectKeeps(s1, CarryRow(p, s1, row, canonical).value, row, rows);
  }

  /** A line that is no carry row moves no balance, and marks a block only
      while there is no carry row yet. */
  lemma OtherLine(p: Primitives, s: State, line: Bytes)
    requires Line(p, s, line).Ok? && Decode(p, line).value.0 != Accounting(ActiveCarry)
    ensures var t, (name, row) := Line(p, s, line).value, Decode(p, line).value;
            && SameBalances(s, t)
            && t.marked == s.marked + (if name == Accounting(Blocks) then MarkedBy(row) else {})
            && (name == Accounting(Blocks) ==> !s.carryStarted)
  {
    var (name, row) := Decode(p, line).value;
    if name.Accounting? {
      var s1 := Hashed(s, name.kind, 1, p.canonical(row) + [LF]);
      if name.kind.Blocks? {
        assert Line(p, s, line) == BlockRow(s1, row);
      } else if name.kind.Shares? {
        assert Line(p, s, line) == ShareRow(p, s1, row);
      } else if name.kind.Candidates? {
        assert Line(p, s, line) == CandidateRow(s1, row);
      }
    }
  }

  // ----- What acceptance means

  /** The findings the database listed. */
  function Listed(s: State): seq<Json> {
    if s.integrity.Obj? && "mismatches" in s.integrity.m && s.integrity.m["mismatches"].Arr?
    then s.integrity.m["mismatches"].a else []
  }

  /** An earlier row of the same program, under another label, that moved it. */
  ghost predicate OtherLabelBefore(rows: seq<Json>, i: nat)
    requires i < |rows|
  {
    exists j :: 0 <= j < i && Fields(rows[j]).program == Fields(rows[i]).program &&
                Fields(rows[j]).account != Fields(rows[i]).account && Net(rows[j]) != 0
  }

  /** Sums over a program and over one of its labels part only at a row of
      another label. */
  lemma {:induction false} SumsAgree(rows: seq<Json>, account: Label)
    requires forall j :: 0 <= j < |rows| ==>
               Fields(rows[j]).program == account.2 && Fields(rows[j]).account != account ==> Net(rows[j]) == 0
    ensures ProgramNet(rows, account.2) == LabelNet(rows, account)
    decreases |rows|
  {
    if rows != [] {
      var last := rows[|rows| - 1];
      SumsAgree(rows[..|rows| - 1], account);
      assert Fields(last).account.2 == Fields(last).program;
    }
  }

  lemma {:induction false} AllExplained(breaks: set<Json>, findings: seq<Json>, k: nat)
    requires Objects(findings) && Unexplained(breaks, findings) == Ok(0) && k < |findings|
    ensures "carry_forward_seq" in findings[k].m && Plain(findings[k].m["carry_forward_seq"]) in breaks
    decreases |findings|
  {
    if k > 0 {
      AllExplained(breaks, findings[1..], k - 1);
    }
  }

  lemma FoundAre(s: State)
    requires Findings(s).Ok?
    ensures Findings(s).value == Listed(s)
  {
  }

  lemma ListedAre(p: Primitives, s: State)
    requires MakeReport(p, s).Ok?
    ensures Objects(Listed(s)) && Unexplained(s.labelBreaks, Listed(s)) == Ok(0) && s.legacyBreaks == 0
  {
    FoundAre(s);
  }

  /** Every unmarked row's stored balances are its payout program's running
      sum. */
  ghost predicate Chained(rows: seq<Json>, marked: set<Json>) {
    forall i :: 0 <= i < |rows| ==>
      Unmarked(rows[i], marked) ==> OnChain(rows[i], ProgramNet(rows[..i], Fields(rows[i]).program))
  }

  lemma NoBreaks(s: State, rows: seq<Json>, marked: set<Json>)
    requires Mirrors(s, rows, marked)
    ensures s.legacyBreaks == 0 <==> Chained(rows, marked)
  {
    if s.legacyBreaks == 0 {
      forall i | 0 <= i < |rows| && Unmarked(rows[i], marked)
        ensures OnChain(rows[i], ProgramNet(rows[..i], Fields(rows[i]).program))
      {
        assert !BreaksProgram(rows, marked, i);
      }
    }
  }

  /** The count the report refuses for is zero exactly when every program's
      chain holds. */
  lemma ProgramChains(p: Primitives, lines: seq<Bytes>)
    requires Feed(p, INITIAL, lines).Ok?
    ensures Feed(p, INITIAL, lines).value.legacyBreaks == 0 <==> Chained(CarryRowsOf(p, lines), MarkedOf(p, lines))
  {
    FeedMirrors(p, lines);
    NoBreaks(Feed(p, INITIAL, lines).value, CarryRowsOf(p, lines), MarkedOf(p, lines));
  }

  /** An accepted report vouches for every unmarked carry row: its stored
      balances are its payout program's running sum. */
  lemma AcceptedBalances(p: Primitives, lines: seq<Bytes>, i: nat)
    requires Summarize(p, lines).Ok?
    requires i < |CarryRowsOf(p, lines)| && Unmarked(CarryRowsOf(p, lines)[i], MarkedOf(p, lines))
    ensures var rows := CarryRowsOf(p, lines);
            OnChain(rows[i], ProgramNet(rows[..i], Fields(rows[i]).program))
  {
    AcceptedChains(p, lines);
    ChainedAt(CarryRowsOf(p, lines), MarkedOf(p, lines), i);
  }

  lemma AcceptedChains(p: Primitives, lines: seq<Bytes>)
    requires Summarize(p, lines).Ok?
    ensures Chained(CarryRowsOf(p, lines), MarkedOf(p, lines))
  {
    ListedAre(p, Feed(p, INITIAL, lines).value);
    ProgramChains(p, lines);
  }

  lemma ChainedAt(rows: seq<Json>, marked: set<Json>, i: nat)
    requires Chained(rows, marked) && i < |rows| && Unmarked(rows[i], marked)
    ensures OnChain(rows[i], ProgramNet(rows[..i], Fields(rows[i]).program))
  {
  }

  /** Every finding an accepted report clears names an unmarked row whose
      program carried something under another label before it. */
  lemma AcceptedFinding(p: Primitives, lines: seq<Bytes>, k: nat)
    requires Summarize(p, lines).Ok?
    requires k < |Listed(Feed(p, INITIAL, lines).value)|
    ensures var finding := Listed(Feed(p, INITIAL, lines).value)[k];
            var rows := CarryRowsOf(p, lines);
            && finding.Obj? && "carry_forward_seq" in finding.m
            && exists i :: 0 <= i < |rows| && Unmarked(rows[i], MarkedOf(p, lines)) &&
                           SeqKey(rows[i]) == Plain(finding.m["carry_forward_seq"]) && OtherLabelBefore(rows, i)
  {
    FeedMirrors(p, lines);
    var s, rows, marked := Feed(p, INITIAL, lines).value, CarryRowsOf(p, lines), MarkedOf(p, lines);
    var findings := Listed(s);
    ListedAre(p, s);
    AllExplained(s.labelBreaks, findings, k);
    var key := Plain(findings[k].m["carry_forward_seq"]);
    var i :| 0 <= i < |rows| && BreaksLabel(rows, marked, i) && SeqKey(rows[i]) == key;
    AcceptedBalances(p, lines, i);
    BrokenLabel(rows, i);
  }

  lemma BrokenLabel(rows: seq<Json>, i: nat)
    requires i < |rows|
    requires OnChain(rows[i], ProgramNet(rows[..i], Fields(rows[i]).program))
    requires !OnChain(rows[i], LabelNet(rows[..i], Fields(rows[i]).account))
    ensures OtherLabelBefore(rows, i)
  {
    if !OtherLabelBefore(rows, i) {
      assert Fields(rows[i]).account.2 == Fields(rows[i]).program;
      SumsAgree(rows[..i], Fields(rows[i]).account);
    }
  }

  /** Where every program is paid under one label, an accepted report lists
      no finding at all. */
  lemma OneLabelNoFindings(p: Primitives, lines: seq<Bytes>)
    requires Summarize(p, lines).Ok?
    requires forall r, q :: r in CarryRowsOf(p, lines) && q in CarryRowsOf(p, lines) ==>
               Fields(r).program == Fields(q).program ==> Fields(r).account == Fields(q).account
    ensures Listed(Feed(p, INITIAL, lines).value) == []
  {
    if Listed(Feed(p, INITIAL, lines).value) != [] {
      AcceptedFinding(p, lines, 0);
    }
  }
}
