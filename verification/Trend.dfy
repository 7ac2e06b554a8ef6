/** The append-only evidence branch: trend rows, their identities, the text of
    a trend file, and what one attempt to record a batch commits. */
module Trend {
  import opened Basics

  /** A row of a kind this writer does not know may be on the branch already. */
  datatype Kind = Preset | Missing | Job | Promotion | Foreign(name: string)

  /** The fields the branch's writer reads; a field the row may lack is an
      option. Of the others, `kept` (the run's URL and artifact) goes into a
      recovered promotion row and `rest` does not. */
  datatype Row = Row(
    schema: string,
    kind: Kind,
    lane: string,
    repository: string,
    runId: int,
    runAttempt: int,
    preset: Option<string>,
    job: Option<string>,
    result: Option<string>,
    commit: Option<string>,
    promotion: Option<string>,
    assetUrl: Option<string>,
    event: string,
    ref: Option<string>,
    recordedAt: string,
    kept: string,
    rest: string)

  datatype Identity =
    | RunIdentity(kind: Kind, repository: string, runId: int, runAttempt: int, preset: Option<string>)
    | JobIdentity(repository: string, runId: int, runAttempt: int, job: Option<string>,
                  result: Option<string>, commit: Option<string>)
    | AssetIdentity(kind: Kind, repository: string, runId: int, runAttempt: int, preset: Option<string>,
                    assetUrl: Option<string>)

  function IdentityOf(row: Row): Identity {
    match row.kind
    case Job => JobIdentity(row.repository, row.runId, row.runAttempt, row.job, row.result, row.commit)
    case Preset => RunIdentity(row.kind, row.repository, row.runId, row.runAttempt, row.preset)
    case Missing => RunIdentity(row.kind, row.repository, row.runId, row.runAttempt, row.preset)
    case _ => AssetIdentity(row.kind, row.repository, row.runId, row.runAttempt, row.preset, row.assetUrl)
  }

  const ROW_SCHEMA := "qbit.prism.load-trend-row.v1"
  const LANES: set<string> := {"L2", "L3", "L4", "L5", "L6", "weekly", "fuzz"}
  const JOB_LANES: map<string, string> := map[
    "bridging" := "L2",
    "live-nightly" := "L4",
    "live-weekly" := "L4",
    "stratum-fuzz" := "fuzz",
    "shipped-images" := "L6",
    "dual-writer-nightly" := "L4"]
  const WRITE_EVENTS: set<string> := {"schedule", "push"}
  const TIME_SHAPE := "dddd-dd-ddTdd:dd:ddZ"

  /** UTC, to the second, as YYYY-MM-DDTHH:MM:SSZ. */
  predicate IsTime(s: string) {
    && |s| == |TIME_SHAPE|
    && forall k :: 0 <= k < |s| ==> if TIME_SHAPE[k] == 'd' then '0' <= s[k] <= '9' else s[k] == TIME_SHAPE[k]
  }

  predicate Valid(row: Row) {
    && row.schema == ROW_SCHEMA && !row.kind.Foreign?
    && row.lane in LANES
    && row.runId >= 1 && row.runAttempt >= 1
    && '/' in row.repository
    && (if row.kind.Job? then row.job.Some? && row.job.value in JOB_LANES && JOB_LANES[row.job.value] == row.lane
        else row.preset.Some? && row.preset.value != "")
    && (row.event in WRITE_EVENTS || (row.kind.Promotion? && row.event == "cite"))
    && (row.event == "push" ==> row.ref.Some? && "refs/tags/v" <= row.ref.value)
    && IsTime(row.recordedAt)
  }

  /** What is added for a promoted preset row that is on the branch already,
      with another asset or none. */
  function Recovered(row: Row, recorded: Row): Option<Row> {
    if Promoted(row) && recorded.assetUrl != row.assetUrl
    then Some(PromotionOf(row))
    else None
  }

  predicate Promoted(row: Row) {
    row.kind.Preset? && row.promotion == Some("promoted") && row.assetUrl.Some? && row.assetUrl.value != ""
  }

  function PromotionOf(row: Row): Row { row.(kind := Promotion, job := None, result := None, rest := "") }

  /** The writer never checks the promotion rows it makes; it need not. */
  lemma RecoveredIsValid(row: Row, recorded: Row)
    requires Valid(row) && Recovered(row, recorded).Some?
    ensures Valid(Recovered(row, recorded).value)
    ensures Recovered(row, recorded).value.lane == row.lane
  {
  }

  /** What a trend file reads as, and the file with one row more. */
  datatype Codec = Codec(rows: string -> seq<Row>, append: (string, Row) -> string) {
    /** Appending a row adds it after the rows there, and to the text's end. */
    ghost predicate Faithful() {
      && rows("") == []
      && forall text, row :: rows(append(text, row)) == rows(text) + [row] && text <= append(text, row)
    }
  }

  // ----- The branch's tree

  /** trend/<lane>/<month>.jsonl */
  datatype Path = Path(lane: string, month: string)

  datatype Tree = Tree(files: map<Path, string>)

  const EMPTY := Tree(map[])

  function Read(tree: Tree, path: Path): string { if path in tree.files then tree.files[path] else "" }

  function PathOf(row: Row): Path {
    Path(row.lane, if |row.recordedAt| < 7 then row.recordedAt else row.recordedAt[..7])
  }

  ghost predicate Holds(codec: Codec, tree: Tree, path: Path, i: int, row: Row) {
    path in tree.files && 0 <= i < |codec.rows(tree.files[path])| && codec.rows(tree.files[path])[i] == row
  }

  /** A row of this identity is recorded in the lane, in whatever month. */
  ghost predicate Recorded(codec: Codec, tree: Tree, lane: string, id: Identity) {
    exists path, i, row :: Holds(codec, tree, path, i, row) && path.lane == lane && IdentityOf(row) == id
  }

  /** Each identity is recorded at most once in a lane. */
  ghost predicate Unique(codec: Codec, tree: Tree) {
    forall p, i, r, q, j, t ::
      Holds(codec, tree, p, i, r) && Holds(codec, tree, q, j, t) ==>
        p.lane == q.lane && IdentityOf(r) == IdentityOf(t) ==> p == q && i == j
  }

  ghost predicate AllValid(codec: Codec, tree: Tree) {
    forall path, i, row :: Holds(codec, tree, path, i, row) ==> Valid(row)
  }

  ghost predicate Good(codec: Codec, tree: Tree) { Unique(codec, tree) && AllValid(codec, tree) }

  /** Every trend file only grew at its end, as text and as rows. */
  ghost predicate Extends(codec: Codec, before: Tree, after: Tree) {
    forall path :: path in before.files ==>
      && path in after.files && before.files[path] <= after.files[path]
      && codec.rows(before.files[path]) <= codec.rows(after.files[path])
  }

  /** The tree with one row more, in its month's file. */
  function AddRow(codec: Codec, tree: Tree, row: Row): Tree {
    Tree(tree.files[PathOf(row) := codec.append(Read(tree, PathOf(row)), row)])
  }

  function AddAll(codec: Codec, tree: Tree, rows: seq<Row>): Tree
    decreases |rows|
  {
    if rows == [] then tree else AddRow(codec, AddAll(codec, tree, rows[..|rows| - 1]), rows[|rows| - 1])
  }

  /** What a tree one row longer holds. */
  lemma AddRowHolds(codec: Codec, tree: Tree, row: Row, path: Path, i: int, r: Row)
    requires codec.Faithful()
    ensures Holds(codec, tree, path, i, r) ==> Holds(codec, AddRow(codec, tree, row), path, i, r)
    ensures Holds(codec, AddRow(codec, tree, row), path, i, r) ==>
              Holds(codec, tree, path, i, r) ||
              (path == PathOf(row) && i == |codec.rows(Read(tree, path))| && r == row)
    ensures Holds(codec, AddRow(codec, tree, row), PathOf(row), |codec.rows(Read(tree, PathOf(row)))|, row)
  {
  }

  lemma AddRowUnique(codec: Codec, tree: Tree, row: Row)
    requires codec.Faithful() && Unique(codec, tree) && !Recorded(codec, tree, row.lane, IdentityOf(row))
    ensures Unique(codec, AddRow(codec, tree, row))
  {
    var after := AddRow(codec, tree, row);
    forall p, i, r, q, j, t | Holds(codec, after, p, i, r) && Holds(codec, after, q, j, t) && p.lane == q.lane &&
                              IdentityOf(r) == IdentityOf(t)
      ensures p == q && i == j
    {
      AddRowHolds(codec, tree, row, p, i, r);
      AddRowHolds(codec, tree, row, q, j, t);
    }
  }

  lemma AddRowValid(codec: Codec, tree: Tree, row: Row)
    requires codec.Faithful() && AllValid(codec, tree) && Valid(row)
    ensures AllValid(codec, AddRow(codec, tree, row))
  {
    forall path, i, r | Holds(codec, AddRow(codec, tree, row), path, i, r) ensures Valid(r) {
      AddRowHolds(codec, tree, row, path, i, r);
    }
  }

  lemma AddRowRecords(codec: Codec, tree: Tree, row: Row, lane: string, id: Identity)
    requires codec.Faithful()
    ensures Recorded(codec, AddRow(codec, tree, row), lane, id) <==>
            Recorded(codec, tree, lane, id) || (lane == row.lane && id == IdentityOf(row))
  {
    var after := AddRow(codec, tree, row);
    if Recorded(codec, after, lane, id) {
      var path, i, r :| Holds(codec, after, path, i, r) && path.lane == lane && IdentityOf(r) == id;
      AddRowHolds(codec, tree, row, path, i, r);
    }
    if Recorded(codec, tree, lane, id) {
      var path, i, r :| Holds(codec, tree, path, i, r) && path.lane == lane && IdentityOf(r) == id;
      AddRowHolds(codec, tree, row, path, i, r);
    }
    AddRowHolds(codec, tree, row, PathOf(row), 0, row);
  }

  lemma {:induction false} AddAllRecords(codec: Codec, tree: Tree, rows: seq<Row>, lane: string, id: Identity)
    requires codec.Faithful()
    ensures Recorded(codec, AddAll(codec, tree, rows), lane, id) <==>
            Recorded(codec, tree, lane, id) ||
            exists k :: 0 <= k < |rows| && rows[k].lane == lane && IdentityOf(rows[k]) == id
    decreases |rows|
  {
    if rows != [] {
      var n := |rows| - 1;
      AddAllRecords(codec, tree, rows[..n], lane, id);
      AddRowRecords(codec, AddAll(codec, tree, rows[..n]), rows[n], lane, id);
      assert forall k :: 0 <= k < n ==> rows[..n][k] == rows[k];
    }
  }

  /** Rows of new identities, all different within a lane. */
  ghost predicate Fresh(codec: Codec, tree: Tree, rows: seq<Row>) {
    && (forall k :: 0 <= k < |rows| ==> !Recorded(codec, tree, rows[k].lane, IdentityOf(rows[k])))
    && DifferInLane(rows)
  }

  lemma {:induction false} AddAllUnique(codec: Codec, tree: Tree, rows: seq<Row>)
    requires codec.Faithful() && Unique(codec, tree) && Fresh(codec, tree, rows)
    ensures Unique(codec, AddAll(codec, tree, rows))
    decreases |rows|
  {
    if rows != [] {
      var n := |rows| - 1;
      AddAllUnique(codec, tree, rows[..n]);
      AddAllRecords(codec, tree, rows[..n], rows[n].lane, IdentityOf(rows[n]));
      AddRowUnique(codec, AddAll(codec, tree, rows[..n]), rows[n]);
    }
  }

  predicate ValidRows(rows: seq<Row>) {
    forall k :: 0 <= k < |rows| ==> Valid(rows[k])
  }

  lemma {:induction false} AddAllValid(codec: Codec, tree: Tree, rows: seq<Row>)
    requires codec.Faithful() && AllValid(codec, tree) && ValidRows(rows)
    ensures AllValid(codec, AddAll(codec, tree, rows))
    decreases |rows|
  {
    if rows != [] {
      var n := |rows| - 1;
      AddAllValid(codec, tree, rows[..n]);
      AddRowValid(codec, AddAll(codec, tree, rows[..n]), rows[n]);
    }
  }

  lemma {:induction false} AddAllExtends(codec: Codec, tree: Tree, rows: seq<Row>)
    requires codec.Faithful()
    ensures Extends(codec, tree, AddAll(codec, tree, rows))
    decreases |rows|
  {
    if rows != [] {
      AddAllExtends(codec, tree, rows[..|rows| - 1]);
    }
  }

  lemma ExtendsTransitive(codec: Codec, a: Tree, b: Tree, c: Tree)
    requires Extends(codec, a, b) && Extends(codec, b, c)
    ensures Extends(codec, a, c)
  {
  }

  /** A recorded row stays recorded, at its place. */
  lemma ExtendsHolds(codec: Codec, before: Tree, after: Tree, path: Path, i: int, row: Row)
    requires Extends(codec, before, after) && Holds(codec, before, path, i, row)
    ensures Holds(codec, after, path, i, row)
  {
    assert codec.rows(before.files[path]) <= codec.rows(after.files[path]);
  }

  // ----- One attempt

  type Seen = map<Identity, Row>

  ghost predicate HeldIn(codec: Codec, tree: Tree, lane: string, row: Row) {
    exists path, i :: Holds(codec, tree, path, i, row) && path.lane == lane
  }

  /** What reading every file of a lane can leave in its dictionary. */
  ghost predicate Reads(codec: Codec, tree: Tree, lane: string, seen: Seen) {
    && (forall id :: id in seen <==> Recorded(codec, tree, lane, id))
    && (forall id :: id in seen ==> IdentityOf(seen[id]) == id && HeldIn(codec, tree, lane, seen[id]))
  }

  /** The row one batch row adds, if any. */
  function Addition(seen: Seen, row: Row): seq<Row> {
    if IdentityOf(row) !in seen then [row] else
    match Recovered(row, seen[IdentityOf(row)])
    case Some(promotion) => if IdentityOf(promotion) in seen then [] else [promotion]
    case None => []
  }

  ghost predicate AllRead(codec: Codec, tree: Tree, lanes: map<string, Seen>, batch: seq<Row>) {
    forall k :: 0 <= k < |batch| ==> batch[k].lane in lanes && Reads(codec, tree, batch[k].lane, lanes[batch[k].lane])
  }

  function Additions(lanes: map<string, Seen>, batch: seq<Row>): seq<Row>
    requires forall k :: 0 <= k < |batch| ==> batch[k].lane in lanes
    decreases |batch|
  {
    if batch == [] then [] else
    var n := |batch| - 1;
    Additions(lanes, batch[..n]) + Addition(lanes[batch[n].lane], batch[n])
  }

  /** The first row of each identity, in order. */
  function Distinct(rows: seq<Row>): seq<Row>
    decreases |rows|
  {
    if rows == [] then [] else
    var n := |rows| - 1;
    var before := Distinct(rows[..n]);
    if HasIdentity(before, IdentityOf(rows[n])) then before else before + [rows[n]]
  }

  predicate HasIdentity(rows: seq<Row>, id: Identity) {
    exists k :: 0 <= k < |rows| && IdentityOf(rows[k]) == id
  }

  predicate AllDifferent(batch: seq<Row>) {
    forall j, k :: 0 <= j < k < |batch| ==> IdentityOf(batch[j]) != IdentityOf(batch[k])
  }

  predicate Batch(batch: seq<Row>) { ValidRows(batch) && AllDifferent(batch) }

  /** Of rows that share an identity one is kept, and it is one of them. */
  lemma {:induction false} DistinctFrom(rows: seq<Row>)
    ensures AllDifferent(Distinct(rows))
    ensures forall row :: row in Distinct(rows) ==> row in rows
    decreases |rows|
  {
    if rows != [] {
      DistinctFrom(rows[..|rows| - 1]);
    }
  }

  lemma DistinctIsBatch(rows: seq<Row>)
    requires ValidRows(rows)
    ensures Batch(Distinct(rows))
  {
    DistinctFrom(rows);
    DistinctStay(rows, r => Valid(r));
  }

  lemma DistinctStay(rows: seq<Row>, ok: Row -> bool)
    requires forall k :: 0 <= k < |rows| ==> ok(rows[k])
    ensures forall k :: 0 <= k < |Distinct(rows)| ==> ok(Distinct(rows)[k])
  {
    DistinctFrom(rows);
    forall k | 0 <= k < |Distinct(rows)| ensures ok(Distinct(rows)[k]) {
      assert Distinct(rows)[k] in rows;
    }
  }

  lemma {:induction false} DistinctKeeps(rows: seq<Row>, id: Identity)
    ensures HasIdentity(Distinct(rows), id) <==> HasIdentity(rows, id)
    decreases |rows|
  {
    if rows != [] {
      var n := |rows| - 1;
      var before, all := Distinct(rows[..n]), Distinct(rows);
      DistinctKeeps(rows[..n], id);
      HasLast(rows[..n], rows[n], id);
      HasLast(before, rows[n], id);
      assert rows == rows[..n] + [rows[n]];
    }
  }

  lemma HasLast(rows: seq<Row>, row: Row, id: Identity)
    ensures HasIdentity(rows + [row], id) <==> HasIdentity(rows, id) || IdentityOf(row) == id
  {
    var all := rows + [row];
    assert all[|rows|] == row;
    if HasIdentity(rows, id) {
      var k :| 0 <= k < |rows| && IdentityOf(rows[k]) == id;
      assert all[k] == rows[k];
    }
  }

  /** Batch row `j` is itself the promotion that recording row `i` again
      could make. */
  predicate Clash(batch: seq<Row>, i: int, j: int)
    requires 0 <= i < |batch| && 0 <= j < |batch|
  {
    && Promoted(batch[i])
    && batch[j].lane == batch[i].lane && IdentityOf(batch[j]) == IdentityOf(PromotionOf(batch[i]))
  }

  predicate NoClash(batch: seq<Row>) {
    forall i, j :: 0 <= i < |batch| && 0 <= j < |batch| ==> !Clash(batch, i, j)
  }

  /** A batch without promotion rows, or without preset rows, cannot clash. */
  lemma UnmixedDoesNotClash(batch: seq<Row>)
    requires (forall k :: 0 <= k < |batch| ==> !batch[k].kind.Promotion?) ||
             (forall k :: 0 <= k < |batch| ==> !batch[k].kind.Preset?)
    ensures NoClash(batch)
  {
  }

  /** What one batch row adds: itself, or the promotion it recovers. */
  lemma AdditionIs(seen: Seen, row: Row, a: Row)
    requires a in Addition(seen, row)
    ensures Addition(seen, row) == [a] && a.lane == row.lane && IdentityOf(a) !in seen
    ensures a == row || (a == PromotionOf(row) && Promoted(row))
  {
  }

  lemma AdditionValid(seen: Seen, row: Row, a: Row)
    requires Valid(row) && a in Addition(seen, row)
    ensures Valid(a)
  {
    if IdentityOf(row) in seen {
      RecoveredIsValid(row, seen[IdentityOf(row)]);
    }
  }

  /** Where each addition came from. */
  lemma {:induction false} AdditionsFrom(lanes: map<string, Seen>, batch: seq<Row>, k: int) returns (i: int)
    requires (forall j :: 0 <= j < |batch| ==> batch[j].lane in lanes) && 0 <= k < |Additions(lanes, batch)|
    ensures 0 <= i < |batch| && Additions(lanes, batch)[k] in Addition(lanes[batch[i].lane], batch[i])
    decreases |batch|
  {
    var n := |batch| - 1;
    var before := Additions(lanes, batch[..n]);
    if k < |before| {
      i := AdditionsFrom(lanes, batch[..n], k);
    } else {
      i := n;
    }
  }

  /** Additions of different batch rows are different records. */
  lemma AdditionsDiffer(lanes: map<string, Seen>, batch: seq<Row>, i: int, j: int, a: Row, b: Row)
    requires AllDifferent(batch) && NoClash(batch) && forall k :: 0 <= k < |batch| ==> batch[k].lane in lanes
    requires 0 <= i < j < |batch|
    requires a in Addition(lanes[batch[i].lane], batch[i]) && b in Addition(lanes[batch[j].lane], batch[j])
    ensures a.lane == b.lane ==> IdentityOf(a) != IdentityOf(b)
  {
    AdditionIs(lanes[batch[i].lane], batch[i], a);
    AdditionIs(lanes[batch[j].lane], batch[j], b);
    assert !Clash(batch, i, j) && !Clash(batch, j, i);
  }

  ghost predicate DiffersFrom(rows: seq<Row>, a: Row) {
    forall k :: 0 <= k < |rows| && rows[k].lane == a.lane ==> IdentityOf(rows[k]) != IdentityOf(a)
  }

  ghost predicate DifferInLane(rows: seq<Row>) {
    forall j, k :: 0 <= j < k < |rows| && rows[j].lane == rows[k].lane ==> IdentityOf(rows[j]) != IdentityOf(rows[k])
  }

  lemma LastDiffers(lanes: map<string, Seen>, batch: seq<Row>, a: Row)
    requires batch != [] && AllDifferent(batch) && NoClash(batch)
    requires forall k :: 0 <= k < |batch| ==> batch[k].lane in lanes
    requires a in Addition(lanes[batch[|batch| - 1].lane], batch[|batch| - 1])
    ensures DiffersFrom(Additions(lanes, batch[..|batch| - 1]), a)
  {
    var n := |batch| - 1;
    var before := Additions(lanes, batch[..n]);
    forall k | 0 <= k < |before| && before[k].lane == a.lane ensures IdentityOf(before[k]) != IdentityOf(a) {
      var i := AdditionsFrom(lanes, batch[..n], k);
      AdditionsDiffer(lanes, batch, i, n, before[k], a);
    }
  }

  lemma NoClashBefore(batch: seq<Row>, n: nat)
    requires NoClash(batch) && n <= |batch|
    ensures NoClash(batch[..n])
  {
    forall i, j | 0 <= i < n && 0 <= j < n ensures !Clash(batch[..n], i, j) {
      assert !Clash(batch, i, j);
    }
  }

  lemma {:induction false} AdditionsAllDiffer(lanes: map<string, Seen>, batch: seq<Row>)
    requires AllDifferent(batch) && NoClash(batch) && forall k :: 0 <= k < |batch| ==> batch[k].lane in lanes
    ensures DifferInLane(Additions(lanes, batch))
    decreases |batch|
  {
    if batch != [] {
      var n := |batch| - 1;
      var before, mine := Additions(lanes, batch[..n]), Addition(lanes[batch[n].lane], batch[n]);
      NoClashBefore(batch, n);
      AdditionsAllDiffer(lanes, batch[..n]);
      if mine != [] {
        AdditionIs(lanes[batch[n].lane], batch[n], mine[0]);
        LastDiffers(lanes, batch, mine[0]);
      }
    }
  }

  lemma AdditionsFresh(codec: Codec, tree: Tree, lanes: map<string, Seen>, batch: seq<Row>)
    requires AllDifferent(batch) && NoClash(batch) && AllRead(codec, tree, lanes, batch)
    ensures Fresh(codec, tree, Additions(lanes, batch))
  {
    var rows := Additions(lanes, batch);
    AdditionsAllDiffer(lanes, batch);
    forall k | 0 <= k < |rows| ensures !Recorded(codec, tree, rows[k].lane, IdentityOf(rows[k])) {
      var i := AdditionsFrom(lanes, batch, k);
      AdditionIs(lanes[batch[i].lane], batch[i], rows[k]);
    }
  }

  lemma AdditionsValid(lanes: map<string, Seen>, batch: seq<Row>)
    requires ValidRows(batch) && forall k :: 0 <= k < |batch| ==> batch[k].lane in lanes
    ensures ValidRows(Additions(lanes, batch))
  {
    var rows := Additions(lanes, batch);
    forall k | 0 <= k < |rows| ensures Valid(rows[k]) {
      var i := AdditionsFrom(lanes, batch, k);
      AdditionValid(lanes[batch[i].lane], batch[i], rows[k]);
    }
  }

  /** The tree an attempt commits. */
  function Attempt(codec: Codec, tree: Tree, lanes: map<string, Seen>, batch: seq<Row>): Tree
    requires forall k :: 0 <= k < |batch| ==> batch[k].lane in lanes
  {
    AddAll(codec, tree, Additions(lanes, batch))
  }

  /** Every row of the batch is recorded in its lane. */
  ghost predicate Has(codec: Codec, tree: Tree, batch: seq<Row>) {
    forall k :: 0 <= k < |batch| ==> Recorded(codec, tree, batch[k].lane, IdentityOf(batch[k]))
  }

  lemma {:induction false} AdditionAdded(lanes: map<string, Seen>, batch: seq<Row>, k: int, a: Row)
    requires forall i :: 0 <= i < |batch| ==> batch[i].lane in lanes
    requires 0 <= k < |batch| && a in Addition(lanes[batch[k].lane], batch[k])
    ensures a in Additions(lanes, batch)
    decreases |batch|
  {
    var n := |batch| - 1;
    if k < n {
      AdditionAdded(lanes, batch[..n], k, a);
    }
  }

  lemma AttemptHas(codec: Codec, tree: Tree, lanes: map<string, Seen>, batch: seq<Row>)
    requires codec.Faithful() && AllRead(codec, tree, lanes, batch)
    ensures Has(codec, Attempt(codec, tree, lanes, batch), batch)
  {
    forall k | 0 <= k < |batch|
      ensures Recorded(codec, Attempt(codec, tree, lanes, batch), batch[k].lane, IdentityOf(batch[k]))
    {
      var row, seen := batch[k], lanes[batch[k].lane];
      AddAllRecords(codec, tree, Additions(lanes, batch), row.lane, IdentityOf(row));
      if IdentityOf(row) !in seen {
        AdditionAdded(lanes, batch, k, row);
      }
    }
  }

  /** Valid rows keep a branch of valid rows valid, clash or no clash. */
  lemma AttemptIsValid(codec: Codec, tree: Tree, lanes: map<string, Seen>, batch: seq<Row>)
    requires codec.Faithful() && AllRead(codec, tree, lanes, batch) && ValidRows(batch) && AllValid(codec, tree)
    ensures AllValid(codec, Attempt(codec, tree, lanes, batch))
  {
    AdditionsValid(lanes, batch);
    AddAllValid(codec, tree, Additions(lanes, batch));
  }

  /** A batch that does not clash repeats no identity, whatever rows the branch
      holds. */
  lemma AttemptIsUnique(codec: Codec, tree: Tree, lanes: map<string, Seen>, batch: seq<Row>)
    requires codec.Faithful() && AllRead(codec, tree, lanes, batch) && AllDifferent(batch) && NoClash(batch)
    requires Unique(codec, tree)
    ensures Unique(codec, Attempt(codec, tree, lanes, batch))
  {
    AdditionsFresh(codec, tree, lanes, batch);
    AddAllUnique(codec, tree, Additions(lanes, batch));
  }

  ghost predicate AssetHeld(codec: Codec, tree: Tree, row: Row) {
    exists r :: HeldIn(codec, tree, row.lane, r) && r.assetUrl == row.assetUrl
  }

  /** Every promoted bundle of the batch is pointed at by a recorded row. */
  ghost predicate HasAssets(codec: Codec, tree: Tree, batch: seq<Row>) {
    forall k :: 0 <= k < |batch| && Promoted(batch[k]) ==> AssetHeld(codec, tree, batch[k])
  }

  lemma AttemptHasAssets(codec: Codec, tree: Tree, lanes: map<string, Seen>, batch: seq<Row>)
    requires codec.Faithful() && AllRead(codec, tree, lanes, batch)
    ensures HasAssets(codec, Attempt(codec, tree, lanes, batch), batch)
  {
    forall k | 0 <= k < |batch| && Promoted(batch[k])
      ensures AssetHeld(codec, Attempt(codec, tree, lanes, batch), batch[k])
    {
      AssetIsHeld(codec, tree, lanes, batch, k);
    }
  }

  /** A bundle's own row points at it, or a promotion row does. */
  lemma AssetIsHeld(codec: Codec, tree: Tree, lanes: map<string, Seen>, batch: seq<Row>, k: int)
    requires codec.Faithful() && AllRead(codec, tree, lanes, batch)
    requires 0 <= k < |batch| && Promoted(batch[k])
    ensures AssetHeld(codec, Attempt(codec, tree, lanes, batch), batch[k])
  {
    var row, seen, added := batch[k], lanes[batch[k].lane], Additions(lanes, batch);
    if Addition(seen, row) == [] {
      var earlier := RecordedAsset(codec, tree, seen, row);
      AddAllKeepsRow(codec, tree, added, row.lane, earlier);
    } else {
      var a := Addition(seen, row)[0];
      AdditionAsset(seen, row);
      AdditionAdded(lanes, batch, k, a);
      AddAllHolds(codec, tree, added, a);
    }
  }

  lemma RecordedAsset(codec: Codec, tree: Tree, seen: Seen, row: Row) returns (earlier: Row)
    requires Reads(codec, tree, row.lane, seen) && Promoted(row) && Addition(seen, row) == []
    ensures HeldIn(codec, tree, row.lane, earlier) && earlier.assetUrl == row.assetUrl
  {
    var id := IdentityOf(row);
    earlier := if seen[id].assetUrl == row.assetUrl then seen[id] else seen[IdentityOf(PromotionOf(row))];
  }

  lemma AdditionAsset(seen: Seen, row: Row)
    requires Promoted(row) && Addition(seen, row) != []
    ensures var a := Addition(seen, row)[0];
            Addition(seen, row) == [a] && a.lane == row.lane && a.assetUrl == row.assetUrl
  {
  }

  lemma {:induction false} AddAllKeepsRow(codec: Codec, tree: Tree, rows: seq<Row>, lane: string, row: Row)
    requires codec.Faithful() && HeldIn(codec, tree, lane, row)
    ensures HeldIn(codec, AddAll(codec, tree, rows), lane, row)
    decreases |rows|
  {
    if rows != [] {
      var n := |rows| - 1;
      AddAllKeepsRow(codec, tree, rows[..n], lane, row);
      var before := AddAll(codec, tree, rows[..n]);
      var path, i :| Holds(codec, before, path, i, row) && path.lane == lane;
      AddRowHolds(codec, before, rows[n], path, i, row);
    }
  }

  lemma {:induction false} AddAllHolds(codec: Codec, tree: Tree, rows: seq<Row>, row: Row)
    requires codec.Faithful() && row in rows
    ensures HeldIn(codec, AddAll(codec, tree, rows), row.lane, row)
    decreases |rows|
  {
    var n := |rows| - 1;
    var before := AddAll(codec, tree, rows[..n]);
    if row == rows[n] {
      AddRowHolds(codec, before, row, PathOf(row), 0, row);
    } else {
      AddAllHolds(codec, tree, rows[..n], row);
      var path, i :| Holds(codec, before, path, i, row) && path.lane == row.lane;
      AddRowHolds(codec, before, rows[n], path, i, row);
    }
  }

  /** One attempt, whatever the batch and the branch, commits a tree that only
      adds to it and holds the whole batch. */
  lemma AttemptRecords(codec: Codec, tree: Tree, lanes: map<string, Seen>, batch: seq<Row>)
    requires codec.Faithful() && AllRead(codec, tree, lanes, batch)
    ensures var after := Attempt(codec, tree, lanes, batch);
            Extends(codec, tree, after) && Has(codec, after, batch) && HasAssets(codec, after, batch)
  {
    AddAllExtends(codec, tree, Additions(lanes, batch));
    AttemptHas(codec, tree, lanes, batch);
    AttemptHasAssets(codec, tree, lanes, batch);
  }

  // ----- When a batch is safe on every branch

  /** A branch whose one row is the batch's row `i`, recorded without its
      asset. */
  function Bare(codec: Codec, row: Row): Tree {
    AddRow(codec, EMPTY, row.(assetUrl := None))
  }

  lemma AddRowStaysRepeated(codec: Codec, tree: Tree, row: Row)
    requires codec.Faithful() && !Unique(codec, tree)
    ensures !Unique(codec, AddRow(codec, tree, row))
  {
    var p, i, r, q, j, t :| Holds(codec, tree, p, i, r) && Holds(codec, tree, q, j, t) &&
                            p.lane == q.lane && IdentityOf(r) == IdentityOf(t) && !(p == q && i == j);
    AddRowHolds(codec, tree, row, p, i, r);
    AddRowHolds(codec, tree, row, q, j, t);
  }

  lemma AddRowRepeats(codec: Codec, tree: Tree, row: Row)
    requires codec.Faithful() && Recorded(codec, tree, row.lane, IdentityOf(row))
    ensures !Unique(codec, AddRow(codec, tree, row))
  {
    var p, i, r :| Holds(codec, tree, p, i, r) && p.lane == row.lane && IdentityOf(r) == IdentityOf(row);
    AddRowHolds(codec, tree, row, p, i, r);
  }

  lemma HeldIsRecorded(codec: Codec, tree: Tree, lane: string, row: Row)
    requires HeldIn(codec, tree, lane, row)
    ensures Recorded(codec, tree, lane, IdentityOf(row))
  {
    var path, i :| Holds(codec, tree, path, i, row) && path.lane == lane;
  }

  lemma AddedIsRecorded(codec: Codec, tree: Tree, rows: seq<Row>, x: int)
    requires codec.Faithful() && 0 <= x < |rows|
    ensures Recorded(codec, AddAll(codec, tree, rows), rows[x].lane, IdentityOf(rows[x]))
  {
    AddAllHolds(codec, tree, rows, rows[x]);
    HeldIsRecorded(codec, AddAll(codec, tree, rows), rows[x].lane, rows[x]);
  }

  lemma LastRepeats(codec: Codec, tree: Tree, before: seq<Row>, row: Row, x: int)
    requires codec.Faithful() && 0 <= x < |before|
    requires before[x].lane == row.lane && IdentityOf(before[x]) == IdentityOf(row)
    ensures !Unique(codec, AddRow(codec, AddAll(codec, tree, before), row))
  {
    AddedIsRecorded(codec, tree, before, x);
    AddRowRepeats(codec, AddAll(codec, tree, before), row);
  }

  lemma {:induction false} AddAllRepeats(codec: Codec, tree: Tree, rows: seq<Row>, x: int, y: int)
    requires codec.Faithful() && 0 <= x < y < |rows|
    requires rows[x].lane == rows[y].lane && IdentityOf(rows[x]) == IdentityOf(rows[y])
    ensures !Unique(codec, AddAll(codec, tree, rows))
    decreases |rows|
  {
    var before, row := rows[..|rows| - 1], rows[|rows| - 1];
    if y < |rows| - 1 {
      AddAllRepeats(codec, tree, before, x, y);
      AddRowStaysRepeated(codec, AddAll(codec, tree, before), row);
    } else {
      LastRepeats(codec, tree, before, row, x);
    }
  }

  /** Batch row `k` adds its row just after the additions before it. */
  lemma {:induction false} AdditionAt(lanes: map<string, Seen>, batch: seq<Row>, k: int)
    requires forall i :: 0 <= i < |batch| ==> batch[i].lane in lanes
    requires 0 <= k < |batch|
    ensures Additions(lanes, batch[..k]) + Addition(lanes[batch[k].lane], batch[k]) <= Additions(lanes, batch)
    decreases |batch|
  {
    var n := |batch| - 1;
    if k < n {
      AdditionAt(lanes, batch[..n], k);
      assert batch[..n][..k] == batch[..k];
    }
  }

  lemma AdditionIndex(lanes: map<string, Seen>, batch: seq<Row>, k: int)
    requires forall i :: 0 <= i < |batch| ==> batch[i].lane in lanes
    requires 0 <= k < |batch| && |Addition(lanes[batch[k].lane], batch[k])| == 1
    ensures var x := |Additions(lanes, batch[..k])|;
            x < |Additions(lanes, batch)| && Additions(lanes, batch)[x] == Addition(lanes[batch[k].lane], batch[k])[0]
  {
    AdditionAt(lanes, batch, k);
    var all := Additions(lanes, batch[..k]) + Addition(lanes[batch[k].lane], batch[k]);
    assert all[|all| - 1] == Addition(lanes[batch[k].lane], batch[k])[0];
  }

  lemma RepeatsBreak(codec: Codec, tree: Tree, lanes: map<string, Seen>, batch: seq<Row>, i: int, j: int)
    requires codec.Faithful() && 0 <= i < |batch| && 0 <= j < |batch| && i != j
    requires forall k :: 0 <= k < |batch| ==> batch[k].lane in lanes
    requires var a, b := Addition(lanes[batch[i].lane], batch[i]), Addition(lanes[batch[j].lane], batch[j]);
             |a| == 1 && |b| == 1 && a[0].lane == b[0].lane && IdentityOf(a[0]) == IdentityOf(b[0])
    ensures !Unique(codec, Attempt(codec, tree, lanes, batch))
    decreases i > j
  {
    if j < i {
      RepeatsBreak(codec, tree, lanes, batch, j, i);
    } else {
      AdditionIndex(lanes, batch, i);
      AdditionIndex(lanes, batch, j);
      AdditionIndex(lanes, batch[..j], i);
      assert batch[..j][..i] == batch[..i];
      AddAllRepeats(codec, tree, Additions(lanes, batch), |Additions(lanes, batch[..i])|,
                    |Additions(lanes, batch[..j])|);
    }
  }

  /** What reading that branch leaves in each lane's dictionary. */
  function BareLanes(batch: seq<Row>, row: Row): map<string, Seen> {
    map k | 0 <= k < |batch| :: batch[k].lane :=
      if batch[k].lane == row.lane then map[IdentityOf(row) := row.(assetUrl := None)] else map[]
  }

  lemma BareReads(codec: Codec, batch: seq<Row>, row: Row)
    requires codec.Faithful() && row.kind.Preset?
    ensures AllRead(codec, Bare(codec, row), BareLanes(batch, row), batch)
  {
    var bare, tree := row.(assetUrl := None), Bare(codec, row);
    forall lane, id ensures Recorded(codec, tree, lane, id) <==> lane == row.lane && id == IdentityOf(row) {
      AddRowRecords(codec, EMPTY, bare, lane, id);
    }
    AddRowHolds(codec, EMPTY, bare, PathOf(bare), 0, bare);
    assert HeldIn(codec, tree, row.lane, bare);
  }

  lemma ClashAdds(batch: seq<Row>, i: int, j: int)
    requires 0 <= i < |batch| && 0 <= j < |batch| && Clash(batch, i, j)
    ensures var seen := BareLanes(batch, batch[i])[batch[i].lane];
            Addition(seen, batch[i]) == [PromotionOf(batch[i])] && Addition(seen, batch[j]) == [batch[j]]
  {
    var seen := BareLanes(batch, batch[i])[batch[i].lane];
    assert seen == map[IdentityOf(batch[i]) := batch[i].(assetUrl := None)];
  }

  lemma BareIsGood(codec: Codec, row: Row)
    requires codec.Faithful() && Valid(row) && row.kind.Preset?
    ensures Good(codec, Bare(codec, row))
  {
    var bare := row.(assetUrl := None);
    assert Valid(bare);
    AddRowUnique(codec, EMPTY, bare);
    AddRowValid(codec, EMPTY, bare);
  }

  /** A clashing batch writes one identity twice to that branch. */
  lemma ClashRepeats(codec: Codec, batch: seq<Row>, i: int, j: int)
    requires codec.Faithful() && Batch(batch) && 0 <= i < |batch| && 0 <= j < |batch| && Clash(batch, i, j)
    ensures Good(codec, Bare(codec, batch[i]))
    ensures AllRead(codec, Bare(codec, batch[i]), BareLanes(batch, batch[i]), batch)
    ensures !Unique(codec, Attempt(codec, Bare(codec, batch[i]), BareLanes(batch, batch[i]), batch))
  {
    BareReads(codec, batch, batch[i]);
    BareIsGood(codec, batch[i]);
    ClashAdds(batch, i, j);
    RepeatsBreak(codec, Bare(codec, batch[i]), BareLanes(batch, batch[i]), batch, i, j);
  }

  /** Recording a batch repeats no identity on any branch without repeats if
      and only if no row of the batch is the promotion another could recover. */
  lemma SafeExactlyWithoutClash(codec: Codec, batch: seq<Row>)
    requires codec.Faithful() && Batch(batch)
    ensures NoClash(batch) <==>
            forall tree, lanes :: Unique(codec, tree) && AllRead(codec, tree, lanes, batch) ==>
              Unique(codec, Attempt(codec, tree, lanes, batch))
  {
    if NoClash(batch) {
      forall tree, lanes | Unique(codec, tree) && AllRead(codec, tree, lanes, batch)
        ensures Unique(codec, Attempt(codec, tree, lanes, batch))
      {
        AttemptIsUnique(codec, tree, lanes, batch);
      }
    } else {
      var i, j :| 0 <= i < |batch| && 0 <= j < |batch| && Clash(batch, i, j);
      ClashRepeats(codec, batch, i, j);
    }
  }

  const SAMPLE := Row(
    ROW_SCHEMA, Preset, "L2", "o/r", 1, 1, Some("p"), None, None, Some("c"), Some("promoted"), Some("u"),
    "schedule", None, "2026-01-01T00:00:00Z", "", "")

  lemma SampleIsValid()
    ensures Valid(SAMPLE) && Valid(SAMPLE.(lane := "L3")) && Promoted(SAMPLE)
  {
    var time := SAMPLE.recordedAt;
    assert |time| == 20 && |TIME_SHAPE| == 20;
    assert time[..5] == "2026-" && time[5..] == "01-01T00:00:00Z";
    assert '/' == SAMPLE.repository[1];
  }

  /** A clashing batch of valid rows: a promoted preset row and its promotion. */
  lemma SampleClashes()
    ensures var batch := [SAMPLE, PromotionOf(SAMPLE)]; Batch(batch) && Clash(batch, 0, 1)
  {
    SampleIsValid();
    RecoveredIsValid(SAMPLE, SAMPLE.(assetUrl := None));
  }

  // ----- When every row is recorded in its own lane

  /** Rows of one identity name one lane. */
  predicate OneLane(rows: seq<Row>) {
    forall i, j :: 0 <= i < |rows| && 0 <= j < |rows| && IdentityOf(rows[i]) == IdentityOf(rows[j]) ==>
      rows[i].lane == rows[j].lane
  }

  lemma KeptRow(rows: seq<Row>, k: int) returns (n: int, i: int)
    requires 0 <= k < |rows|
    ensures 0 <= n < |Distinct(rows)| && IdentityOf(Distinct(rows)[n]) == IdentityOf(rows[k])
    ensures 0 <= i < |rows| && rows[i] == Distinct(rows)[n]
  {
    DistinctFrom(rows);
    DistinctKeeps(rows, IdentityOf(rows[k]));
    n :| 0 <= n < |Distinct(rows)| && IdentityOf(Distinct(rows)[n]) == IdentityOf(rows[k]);
    assert Distinct(rows)[n] in rows;
    i :| 0 <= i < |rows| && rows[i] == Distinct(rows)[n];
  }

  /** With one lane to an identity, the rows kept stand for all of them. */
  lemma HasKept(codec: Codec, tree: Tree, rows: seq<Row>)
    requires OneLane(rows) && Has(codec, tree, Distinct(rows))
    ensures Has(codec, tree, rows)
  {
    forall k | 0 <= k < |rows| ensures Recorded(codec, tree, rows[k].lane, IdentityOf(rows[k])) {
      var n, i := KeptRow(rows, k);
      assert Recorded(codec, tree, Distinct(rows)[n].lane, IdentityOf(Distinct(rows)[n]));
    }
  }

  function NoLanes(batch: seq<Row>): map<string, Seen> {
    map k | 0 <= k < |batch| :: batch[k].lane := map[]
  }

  lemma {:induction false} AllAdded(lanes: map<string, Seen>, batch: seq<Row>)
    requires forall k :: 0 <= k < |batch| ==> batch[k].lane in lanes && lanes[batch[k].lane] == map[]
    ensures Additions(lanes, batch) == batch
    decreases |batch|
  {
    if batch != [] {
      AllAdded(lanes, batch[..|batch| - 1]);
    }
  }

  lemma NothingRecorded(codec: Codec, lane: string, id: Identity)
    ensures !Recorded(codec, EMPTY, lane, id)
  {
  }

  lemma EmptyReads(codec: Codec, batch: seq<Row>)
    ensures AllRead(codec, EMPTY, NoLanes(batch), batch)
  {
    forall k | 0 <= k < |batch| ensures Reads(codec, EMPTY, batch[k].lane, map[]) {
      forall id ensures !Recorded(codec, EMPTY, batch[k].lane, id) {
        NothingRecorded(codec, batch[k].lane, id);
      }
    }
  }

  /** On a new branch exactly the kept rows are recorded. */
  lemma FirstAttempt(codec: Codec, batch: seq<Row>, lane: string, id: Identity)
    requires codec.Faithful()
    ensures Recorded(codec, Attempt(codec, EMPTY, NoLanes(batch), batch), lane, id) <==>
            exists k :: 0 <= k < |batch| && batch[k].lane == lane && IdentityOf(batch[k]) == id
  {
    AllAdded(NoLanes(batch), batch);
    NothingRecorded(codec, lane, id);
    AddAllRecords(codec, EMPTY, batch, lane, id);
  }

  lemma OneLanePerIdentity(batch: seq<Row>, id: Identity, a: string, b: string)
    requires AllDifferent(batch)
    requires exists k :: 0 <= k < |batch| && batch[k].lane == a && IdentityOf(batch[k]) == id
    requires exists k :: 0 <= k < |batch| && batch[k].lane == b && IdentityOf(batch[k]) == id
    ensures a == b
  {
    var i :| 0 <= i < |batch| && batch[i].lane == a && IdentityOf(batch[i]) == id;
    var j :| 0 <= j < |batch| && batch[j].lane == b && IdentityOf(batch[j]) == id;
    assert i == j;
  }

  /** Of two rows of one identity in two lanes, one is not recorded in its
      own lane on a new branch. */
  lemma OtherLaneIsLost(codec: Codec, rows: seq<Row>, i: int, j: int)
    requires codec.Faithful()
    requires 0 <= i < |rows| && 0 <= j < |rows|
    requires IdentityOf(rows[i]) == IdentityOf(rows[j]) && rows[i].lane != rows[j].lane
    ensures !Has(codec, Attempt(codec, EMPTY, NoLanes(Distinct(rows)), Distinct(rows)), rows)
  {
    var batch, id := Distinct(rows), IdentityOf(rows[i]);
    var after := Attempt(codec, EMPTY, NoLanes(batch), batch);
    DistinctFrom(rows);
    FirstAttempt(codec, batch, rows[i].lane, id);
    FirstAttempt(codec, batch, rows[j].lane, id);
    if Recorded(codec, after, rows[i].lane, id) && Recorded(codec, after, rows[j].lane, id) {
      OneLanePerIdentity(batch, id, rows[i].lane, rows[j].lane);
    }
  }

  /** Valid rows of one identity in two lanes. */
  lemma SampleInTwoLanes(codec: Codec)
    requires codec.Faithful()
    ensures var rows := [SAMPLE, SAMPLE.(lane := "L3")];
            && Valid(rows[0]) && Valid(rows[1]) && IdentityOf(rows[0]) == IdentityOf(rows[1])
            && !Has(codec, Attempt(codec, EMPTY, NoLanes(Distinct(rows)), Distinct(rows)), rows)
  {
    SampleIsValid();
    OtherLaneIsLost(codec, [SAMPLE, SAMPLE.(lane := "L3")], 0, 1);
  }

  /** A normal attempt records every row in its own lane, whatever the branch,
      if and only if rows of one identity name one lane. */
  lemma InLaneExactly(codec: Codec, rows: seq<Row>)
    requires codec.Faithful()
    ensures OneLane(rows) <==>
            forall tree, lanes :: AllRead(codec, tree, lanes, Distinct(rows)) ==>
              Has(codec, Attempt(codec, tree, lanes, Distinct(rows)), rows)
  {
    var batch := Distinct(rows);
    if OneLane(rows) {
      forall tree, lanes | AllRead(codec, tree, lanes, batch)
        ensures Has(codec, Attempt(codec, tree, lanes, batch), rows)
      {
        AttemptHas(codec, tree, lanes, batch);
        HasKept(codec, Attempt(codec, tree, lanes, batch), rows);
      }
    } else {
      var i, j :| 0 <= i < |rows| && 0 <= j < |rows| &&
                  IdentityOf(rows[i]) == IdentityOf(rows[j]) && rows[i].lane != rows[j].lane;
      EmptyReads(codec, batch);
      OtherLaneIsLost(codec, rows, i, j);
    }
  }
}
