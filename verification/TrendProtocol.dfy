/** Any number of writers recording batches on the one evidence branch: each
    fetches the tip, commits on it and pushes without force, and retries when
    the push is rejected or its reply is lost. */
module TrendProtocol {
  import opened Basics
  import opened Trend

  // ----- One attempt, as the writer runs it

  ghost predicate FromLane(codec: Codec, tree: Tree, lane: string, seen: Seen) {
    forall id :: id in seen ==> IdentityOf(seen[id]) == id && HeldIn(codec, tree, lane, seen[id])
  }

  method ReadFile(codec: Codec, tree: Tree, path: Path, before: Seen) returns (seen: Seen)
    requires path in tree.files && FromLane(codec, tree, path.lane, before)
    ensures FromLane(codec, tree, path.lane, seen) && before.Keys <= seen.Keys
    ensures forall i, row :: Holds(codec, tree, path, i, row) ==> IdentityOf(row) in seen
  {
    seen := before;
    var rows := codec.rows(tree.files[path]);
    for k := 0 to |rows|
      invariant FromLane(codec, tree, path.lane, seen) && before.Keys <= seen.Keys
      invariant forall i :: 0 <= i < k ==> IdentityOf(rows[i]) in seen
    {
      assert Holds(codec, tree, path, k, rows[k]);
      seen := seen[IdentityOf(rows[k]) := rows[k]];
    }
  }

  method ReadLane(codec: Codec, tree: Tree, lane: string) returns (seen: Seen)
    ensures Reads(codec, tree, lane, seen)
  {
    seen := map[];
    ghost var all := set path | path in tree.files && path.lane == lane;
    var todo := set path | path in tree.files && path.lane == lane;
    while todo != {}
      invariant todo <= all
      invariant FromLane(codec, tree, lane, seen)
      invariant forall path, i, row :: path in all - todo && Holds(codec, tree, path, i, row) ==>
                  IdentityOf(row) in seen
      decreases |todo|
    {
      var path :| path in todo;
      seen := ReadFile(codec, tree, path, seen);
      todo := todo - {path};
    }
    forall id | Recorded(codec, tree, lane, id) ensures id in seen {
      var path, i, row :| Holds(codec, tree, path, i, row) && path.lane == lane && IdentityOf(row) == id;
      assert path in all;
    }
    forall id | id in seen ensures Recorded(codec, tree, lane, id) {
      var path, i :| Holds(codec, tree, path, i, seen[id]) && path.lane == lane;
    }
  }

  /** The file's text with `rows` appended, one line each. */
  function WithRows(codec: Codec, text: string, rows: seq<Row>): string
    decreases |rows|
  {
    if rows == [] then text
    else codec.append(WithRows(codec, text, rows[..|rows| - 1]), rows[|rows| - 1])
  }

  function RowsFor(rows: seq<Row>, path: Path): seq<Row>
    decreases |rows|
  {
    if rows == [] then [] else
    var before := RowsFor(rows[..|rows| - 1], path);
    if PathOf(rows[|rows| - 1]) == path then before + [rows[|rows| - 1]] else before
  }

  /** Appending path by path is appending row by row. */
  lemma {:induction false} ByPath(codec: Codec, tree: Tree, rows: seq<Row>, path: Path)
    ensures Read(AddAll(codec, tree, rows), path) == WithRows(codec, Read(tree, path), RowsFor(rows, path))
    ensures path in AddAll(codec, tree, rows).files <==> path in tree.files || RowsFor(rows, path) != []
    decreases |rows|
  {
    if rows != [] {
      var n := |rows| - 1;
      ByPath(codec, tree, rows[..n], path);
      var mine := RowsFor(rows, path);
      if PathOf(rows[n]) == path {
        assert mine[..|mine| - 1] == RowsFor(rows[..n], path);
      }
    }
  }

  /** What an attempt on `tree` may commit; none when every row is recorded. */
  ghost predicate Plans(codec: Codec, tree: Tree, batch: seq<Row>, plan: Option<Tree>) {
    exists lanes ::
      && AllRead(codec, tree, lanes, batch)
      && plan == if Additions(lanes, batch) == [] then None else Some(Attempt(codec, tree, lanes, batch))
  }

  /** `additions` is `rows`, grouped by file. */
  ghost predicate Grouped(additions: map<Path, seq<Row>>, rows: seq<Row>) {
    && (forall path :: path in additions ==> additions[path] != [] && additions[path] == RowsFor(rows, path))
    && (forall path :: RowsFor(rows, path) != [] ==> path in additions)
  }

  method Group(additions: map<Path, seq<Row>>, ghost rows: seq<Row>, row: Row) returns (more: map<Path, seq<Row>>)
    requires Grouped(additions, rows)
    ensures Grouped(more, rows + [row])
  {
    var path := PathOf(row);
    more := additions[path := (if path in additions then additions[path] else []) + [row]];
    assert (rows + [row])[..|rows|] == rows;
  }

  ghost predicate SeenOk(codec: Codec, tree: Tree, seen: map<string, Seen>) {
    forall lane :: lane in seen ==> Reads(codec, tree, lane, seen[lane])
  }

  ghost predicate Covers(seen: map<string, Seen>, batch: seq<Row>) {
    forall k :: 0 <= k < |batch| ==> batch[k].lane in seen
  }

  /** Reads a lane unless it was read before. */
  method WithLane(codec: Codec, tree: Tree, seen: map<string, Seen>, lane: string, ghost batch: seq<Row>)
    returns (more: map<string, Seen>)
    requires SeenOk(codec, tree, seen) && Covers(seen, batch)
    ensures SeenOk(codec, tree, more) && lane in more && Covers(more, batch)
    ensures Additions(more, batch) == Additions(seen, batch)
  {
    more := seen;
    if lane !in seen {
      var read := ReadLane(codec, tree, lane);
      more := seen[lane := read];
    }
    SameAdditions(seen, more, batch);
  }

  lemma SeenReads(codec: Codec, tree: Tree, seen: map<string, Seen>, batch: seq<Row>)
    requires SeenOk(codec, tree, seen) && Covers(seen, batch)
    ensures AllRead(codec, tree, seen, batch)
  {
  }

  method Collect(codec: Codec, tree: Tree, batch: seq<Row>)
    returns (additions: map<Path, seq<Row>>, lanes: map<string, Seen>)
    ensures SeenOk(codec, tree, lanes) && Covers(lanes, batch) && Grouped(additions, Additions(lanes, batch))
  {
    additions, lanes := map[], map[];
    for k := 0 to |batch|
      invariant SeenOk(codec, tree, lanes) && Covers(lanes, batch[..k])
      invariant Grouped(additions, Additions(lanes, batch[..k]))
    {
      assert batch[..k + 1] == batch[..k] + [batch[k]];
      additions, lanes := CollectNext(codec, tree, batch[..k], batch[k], additions, lanes);
    }
    assert batch[..|batch|] == batch;
  }

  method CollectNext(codec: Codec, tree: Tree, ghost batch: seq<Row>, row: Row, before: map<Path, seq<Row>>,
      known: map<string, Seen>)
    returns (additions: map<Path, seq<Row>>, lanes: map<string, Seen>)
    requires SeenOk(codec, tree, known) && Covers(known, batch) && Grouped(before, Additions(known, batch))
    ensures SeenOk(codec, tree, lanes) && Covers(lanes, batch + [row])
    ensures Grouped(additions, Additions(lanes, batch + [row]))
  {
    lanes := WithLane(codec, tree, known, row.lane, batch);
    AdditionsLast(lanes, batch, row);
    additions := CollectRow(lanes[row.lane], row, before, Additions(lanes, batch));
  }

  method CollectRow(seen: Seen, row: Row, additions: map<Path, seq<Row>>, ghost rows: seq<Row>)
    returns (more: map<Path, seq<Row>>)
    requires Grouped(additions, rows)
    ensures Grouped(more, rows + Addition(seen, row))
  {
    var mine := Addition(seen, row);
    if mine == [] {
      assert rows + mine == rows;
      return additions;
    }
    assert mine == [mine[0]];
    more := Group(additions, rows, mine[0]);
  }

  lemma AdditionsLast(lanes: map<string, Seen>, batch: seq<Row>, row: Row)
    requires Covers(lanes, batch) && row.lane in lanes
    ensures Covers(lanes, batch + [row])
    ensures Additions(lanes, batch + [row]) == Additions(lanes, batch) + Addition(lanes[row.lane], row)
  {
    assert (batch + [row])[..|batch|] == batch;
  }

  /** The new text of every file that gets a row. */
  ghost predicate ContentsOf(codec: Codec, tree: Tree, additions: map<Path, seq<Row>>, contents: map<Path, string>) {
    forall path :: path in contents ==>
      path in additions && contents[path] == WithRows(codec, Read(tree, path), additions[path])
  }

  method Contents(codec: Codec, tree: Tree, additions: map<Path, seq<Row>>) returns (contents: map<Path, string>)
    ensures contents.Keys == additions.Keys && ContentsOf(codec, tree, additions, contents)
  {
    contents := map[];
    var todo := additions.Keys;
    while todo != {}
      invariant todo <= additions.Keys && contents.Keys == additions.Keys - todo
      invariant ContentsOf(codec, tree, additions, contents)
      decreases |todo|
    {
      var path :| path in todo;
      contents := contents[path := WithRows(codec, Read(tree, path), additions[path])];
      todo := todo - {path};
    }
  }

  lemma ContentsAreAdded(codec: Codec, tree: Tree, additions: map<Path, seq<Row>>, contents: map<Path, string>,
      rows: seq<Row>)
    requires Grouped(additions, rows)
    requires contents.Keys == additions.Keys && ContentsOf(codec, tree, additions, contents)
    ensures Tree(tree.files + contents) == AddAll(codec, tree, rows)
  {
    var after, expected := tree.files + contents, AddAll(codec, tree, rows).files;
    forall path
      ensures path in after <==> path in expected
      ensures path in after && path in expected ==> after[path] == expected[path]
    {
      ByPath(codec, tree, rows, path);
    }
    assert after.Keys == expected.Keys;
  }

  method PlanAttempt(codec: Codec, tree: Tree, batch: seq<Row>) returns (plan: Option<Tree>)
    ensures Plans(codec, tree, batch, plan)
  {
    var additions, lanes := Collect(codec, tree, batch);
    SeenReads(codec, tree, lanes, batch);
    ghost var rows := Additions(lanes, batch);
    if rows != [] {
      LastHasPath(rows);
    }
    if additions == map[] {
      return None;
    }
    var contents := Contents(codec, tree, additions);
    ContentsAreAdded(codec, tree, additions, contents, rows);
    assert rows != [] by {
      var path :| path in additions;
      assert RowsFor(rows, path) != [];
    }
    return Some(Tree(tree.files + contents));
  }

  lemma {:induction false} SameAdditions(a: map<string, Seen>, b: map<string, Seen>, batch: seq<Row>)
    requires forall k :: 0 <= k < |batch| ==>
               batch[k].lane in a && batch[k].lane in b && a[batch[k].lane] == b[batch[k].lane]
    ensures Additions(a, batch) == Additions(b, batch)
    decreases |batch|
  {
    if batch != [] {
      SameAdditions(a, b, batch[..|batch| - 1]);
    }
  }

  lemma LastHasPath(rows: seq<Row>)
    requires rows != []
    ensures RowsFor(rows, PathOf(rows[|rows| - 1])) != []
  {
  }

  // ----- The branch and its writers

  /** A commit is what it holds and what it was made on; `stamp` is whatever
      else tells two of them apart. */
  datatype Commit = NoBranch | Commit(parent: Commit, tree: Tree, stamp: nat)

  function TreeOf(c: Commit): Tree { if c.NoBranch? then EMPTY else c.tree }

  predicate Ancestor(a: Commit, c: Commit) {
    a == c || (c.Commit? && Ancestor(a, c.parent))
  }

  /** Made on `base` by commits that each only add to the one before. */
  ghost predicate Grew(codec: Codec, base: Commit, c: Commit) {
    c == base ||
    (c.Commit? && Grew(codec, base, c.parent) && Extends(codec, TreeOf(c.parent), c.tree))
  }

  function Depth(c: Commit): nat { if c.NoBranch? then 0 else 1 + Depth(c.parent) }

  lemma {:induction false} AncestorIsOlder(a: Commit, c: Commit)
    requires Ancestor(a, c)
    ensures a == c || Depth(a) < Depth(c)
    decreases c
  {
    if a != c {
      AncestorIsOlder(a, c.parent);
    }
  }

  lemma {:induction false} GrewIsOlder(codec: Codec, base: Commit, c: Commit)
    requires Grew(codec, base, c)
    ensures c == base || Depth(base) < Depth(c)
    decreases c
  {
    if c != base {
      GrewIsOlder(codec, base, c.parent);
    }
  }

  lemma {:induction false} AncestorExtends(codec: Codec, base: Commit, a: Commit, c: Commit)
    requires Grew(codec, base, a) && Grew(codec, base, c) && Ancestor(a, c)
    ensures Extends(codec, TreeOf(a), TreeOf(c))
    decreases c
  {
    if a != c {
      AncestorIsOlder(a, c);
      GrewIsOlder(codec, base, a);
      AncestorExtends(codec, base, a, c.parent);
      ExtendsTransitive(codec, TreeOf(a), TreeOf(c.parent), TreeOf(c));
    }
  }

  lemma {:induction false} AncestorTransitive(a: Commit, b: Commit, c: Commit)
    requires Ancestor(a, b) && Ancestor(b, c)
    ensures Ancestor(a, c)
    decreases c
  {
    if b != c {
      AncestorTransitive(a, b, c.parent);
    }
  }

  /** `Asked` before the rows are checked, `Ready` before each fetch. */
  datatype Phase =
    | Asked
    | Ready
    | Prepared(commit: Commit)
    | Waiting(commit: Commit)
    | Returned
    | Failed

  /** `rows` is what the writer was asked to record. */
  datatype Writer = Writer(rows: seq<Row>, attempts: nat, phase: Phase)

  /** `sent` holds every push the remote may still receive: one whose writer
      gave up waiting can land late. */
  datatype System = System(remote: Commit, sent: set<Commit>, writers: seq<Writer>)

  /** Any branch, and any rows asked of any writers. */
  predicate Init(s: System) {
    s.sent == {} && forall w :: 0 <= w < |s.writers| ==> s.writers[w].phase == Asked
  }

  ghost predicate Moves(s: System, t: System, w: int, phase: Phase) {
    0 <= w < |s.writers| && t.writers == s.writers[w := s.writers[w].(phase := phase)]
  }

  datatype Step =
    | CheckStep(w: int)
    | FetchStep(w: int, plan: Option<Tree>, stamp: nat)
    | SendStep(w: int)
    | LandStep(commit: Commit)
    | AcceptedStep(w: int)
    | NotAcceptedStep(w: int)
    | GiveUpStep(w: int)

  ghost predicate Next(codec: Codec, s: System, t: System, step: Step) {
    match step
    // Every row is checked before the first attempt.
    case CheckStep(w) =>
      && 0 <= w < |s.writers| && s.writers[w].phase == Asked
      && Moves(s, t, w, if ValidRows(s.writers[w].rows) then Ready else Failed)
      && t.remote == s.remote && t.sent == s.sent
    // The tip is read at once; the attempt commits on it, or finds nothing
    // to add and returns.
    case FetchStep(w, plan, stamp) =>
      && 0 <= w < |s.writers| && s.writers[w].phase == Ready && s.writers[w].attempts > 0
      && Plans(codec, TreeOf(s.remote), Distinct(s.writers[w].rows), plan)
      && Moves(s, t, w, if plan.None? then Returned else Prepared(Commit(s.remote, plan.value, stamp)))
      && t.remote == s.remote && t.sent == s.sent
    case SendStep(w) =>
      && 0 <= w < |s.writers| && s.writers[w].phase.Prepared?
      && Moves(s, t, w, Waiting(s.writers[w].phase.commit))
      && t.remote == s.remote && t.sent == s.sent + {s.writers[w].phase.commit}
    // The remote takes a push only when the tip is in its history.
    case LandStep(commit) =>
      && commit in s.sent && Ancestor(s.remote, commit)
      && t == s.(remote := commit)
    // The remote answers yes only to a push it took.
    case AcceptedStep(w) =>
      && 0 <= w < |s.writers| && s.writers[w].phase.Waiting? && Ancestor(s.writers[w].phase.commit, s.remote)
      && Moves(s, t, w, Returned)
      && t.remote == s.remote && t.sent == s.sent
    // Rejected, or landed with the reply lost: the writer cannot tell.
    case NotAcceptedStep(w) =>
      && 0 <= w < |s.writers| && s.writers[w].phase.Waiting? && s.writers[w].attempts > 0
      && t.writers == s.writers[w := s.writers[w].(
           attempts := s.writers[w].attempts - 1,
           phase := if s.writers[w].attempts == 1 then Failed else Ready)]
      && t.remote == s.remote && t.sent == s.sent
    // The deadline passes, or git fails, anywhere.
    case GiveUpStep(w) =>
      && 0 <= w < |s.writers| && !s.writers[w].phase.Returned?
      && Moves(s, t, w, Failed)
      && t.remote == s.remote && t.sent == s.sent
  }

  /** The batch is recorded, and its promoted bundles are pointed at. */
  ghost predicate Keeps(codec: Codec, tree: Tree, batch: seq<Row>) {
    Has(codec, tree, batch) && HasAssets(codec, tree, batch)
  }

  /** What a writer holds: rows that passed the check, and a commit, if it has
      one, that records them. */
  ghost predicate WriterOk(codec: Codec, base: Commit, remote: Commit, w: Writer) {
    var batch := Distinct(w.rows);
    && (w.phase.Asked? || w.phase.Failed? || ValidRows(w.rows))
    && match w.phase
       case Prepared(c) => Grew(codec, base, c) && Keeps(codec, TreeOf(c), batch)
       case Waiting(c) => Grew(codec, base, c) && Keeps(codec, TreeOf(c), batch)
       case Returned => Keeps(codec, TreeOf(remote), batch)
       case _ => true
  }

  /** Everything in flight was made on `base`, and each writer keeps its word. */
  ghost predicate Inv(codec: Codec, base: Commit, s: System) {
    && Grew(codec, base, s.remote)
    && (forall c :: c in s.sent ==> Grew(codec, base, c))
    && (forall w :: 0 <= w < |s.writers| ==> WriterOk(codec, base, s.remote, s.writers[w]))
  }

  lemma RecordedGrows(codec: Codec, a: Tree, b: Tree, lane: string, id: Identity)
    requires Extends(codec, a, b) && Recorded(codec, a, lane, id)
    ensures Recorded(codec, b, lane, id)
  {
    var path, i, row :| Holds(codec, a, path, i, row) && path.lane == lane && IdentityOf(row) == id;
    ExtendsHolds(codec, a, b, path, i, row);
  }

  lemma HasGrows(codec: Codec, a: Tree, b: Tree, batch: seq<Row>)
    requires Extends(codec, a, b) && Has(codec, a, batch)
    ensures Has(codec, b, batch)
  {
    forall k | 0 <= k < |batch| ensures Recorded(codec, b, batch[k].lane, IdentityOf(batch[k])) {
      RecordedGrows(codec, a, b, batch[k].lane, IdentityOf(batch[k]));
    }
  }

  lemma HeldGrows(codec: Codec, a: Tree, b: Tree, lane: string, row: Row)
    requires Extends(codec, a, b) && HeldIn(codec, a, lane, row)
    ensures HeldIn(codec, b, lane, row)
  {
    var path, i :| Holds(codec, a, path, i, row) && path.lane == lane;
    ExtendsHolds(codec, a, b, path, i, row);
  }

  lemma AssetsGrow(codec: Codec, a: Tree, b: Tree, batch: seq<Row>)
    requires Extends(codec, a, b) && HasAssets(codec, a, batch)
    ensures HasAssets(codec, b, batch)
  {
    forall k | 0 <= k < |batch| && Promoted(batch[k]) ensures AssetHeld(codec, b, batch[k]) {
      assert AssetHeld(codec, a, batch[k]);
      var r :| HeldIn(codec, a, batch[k].lane, r) && r.assetUrl == batch[k].assetUrl;
      HeldGrows(codec, a, b, batch[k].lane, r);
    }
  }

  lemma KeepsGrows(codec: Codec, a: Tree, b: Tree, batch: seq<Row>)
    requires Extends(codec, a, b) && Keeps(codec, a, batch)
    ensures Keeps(codec, b, batch)
  {
    HasGrows(codec, a, b, batch);
    AssetsGrow(codec, a, b, batch);
  }

  /** A fetch either finds the batch recorded or prepares a commit that
      records it on the tip it read. */
  lemma PlanKeeps(codec: Codec, tree: Tree, batch: seq<Row>, plan: Option<Tree>)
    requires codec.Faithful() && Plans(codec, tree, batch, plan)
    ensures plan.None? ==> Keeps(codec, tree, batch)
    ensures plan.Some? ==> Extends(codec, tree, plan.value) && Keeps(codec, plan.value, batch)
  {
    var lanes :| AllRead(codec, tree, lanes, batch) &&
                 plan == if Additions(lanes, batch) == [] then None else Some(Attempt(codec, tree, lanes, batch));
    AttemptRecords(codec, tree, lanes, batch);
  }

  lemma InvInit(codec: Codec, s: System)
    requires Init(s)
    ensures Inv(codec, s.remote, s)
  {
  }

  lemma FetchKeeps(codec: Codec, base: Commit, s: System, t: System, w: int, plan: Option<Tree>, stamp: nat)
    requires codec.Faithful() && Inv(codec, base, s) && Next(codec, s, t, FetchStep(w, plan, stamp))
    ensures Inv(codec, base, t)
  {
    FetchedWriter(codec, base, s.remote, s.writers[w], plan, stamp);
    assert WriterOk(codec, base, t.remote, t.writers[w]);
    forall v | 0 <= v < |t.writers| && v != w ensures WriterOk(codec, base, t.remote, t.writers[v]) {
      assert t.writers[v] == s.writers[v];
    }
  }

  lemma FetchedWriter(codec: Codec, base: Commit, remote: Commit, writer: Writer, plan: Option<Tree>, stamp: nat)
    requires codec.Faithful() && Grew(codec, base, remote) && ValidRows(writer.rows)
    requires Plans(codec, TreeOf(remote), Distinct(writer.rows), plan)
    ensures var phase := if plan.None? then Returned else Prepared(Commit(remote, plan.value, stamp));
            WriterOk(codec, base, remote, writer.(phase := phase))
  {
    PlanKeeps(codec, TreeOf(remote), Distinct(writer.rows), plan);
  }

  lemma LandKeeps(codec: Codec, base: Commit, s: System, t: System, commit: Commit)
    requires Inv(codec, base, s) && Next(codec, s, t, LandStep(commit))
    ensures Inv(codec, base, t)
  {
    AncestorExtends(codec, base, s.remote, commit);
    forall w | 0 <= w < |s.writers| ensures WriterOk(codec, base, commit, s.writers[w]) {
      assert WriterOk(codec, base, s.remote, s.writers[w]);
      if s.writers[w].phase.Returned? {
        KeepsGrows(codec, TreeOf(s.remote), TreeOf(commit), Distinct(s.writers[w].rows));
      }
    }
  }

  lemma AcceptedKeeps(codec: Codec, base: Commit, s: System, t: System, w: int)
    requires Inv(codec, base, s) && Next(codec, s, t, AcceptedStep(w))
    ensures Inv(codec, base, t)
  {
    var c := s.writers[w].phase.commit;
    assert WriterOk(codec, base, s.remote, s.writers[w]);
    AncestorExtends(codec, base, c, s.remote);
    KeepsGrows(codec, TreeOf(c), TreeOf(s.remote), Distinct(s.writers[w].rows));
  }

  lemma OtherKeeps(codec: Codec, base: Commit, s: System, t: System, step: Step)
    requires Inv(codec, base, s) && Next(codec, s, t, step)
    requires step.CheckStep? || step.SendStep? || step.NotAcceptedStep? || step.GiveUpStep?
    ensures Inv(codec, base, t)
  {
    assert WriterOk(codec, base, s.remote, s.writers[step.w]);
  }

  /** Every step keeps the invariant. */
  lemma InvNext(codec: Codec, base: Commit, s: System, t: System, step: Step)
    requires codec.Faithful() && Inv(codec, base, s) && Next(codec, s, t, step)
    ensures Inv(codec, base, t)
  {
    match step
    case FetchStep(w, plan, stamp) => FetchKeeps(codec, base, s, t, w, plan, stamp);
    case LandStep(commit) => LandKeeps(codec, base, s, t, commit);
    case AcceptedStep(w) => AcceptedKeeps(codec, base, s, t, w);
    case _ => OtherKeeps(codec, base, s, t, step);
  }

  // ----- What the branch holds

  /** `good` holds of the branch and of everything in flight. */
  ghost predicate Everywhere(good: Tree -> bool, s: System) {
    && good(TreeOf(s.remote))
    && (forall c :: c in s.sent ==> good(TreeOf(c)))
    && (forall w :: 0 <= w < |s.writers| ==> InFlight(good, s.writers[w].phase))
  }

  ghost predicate InFlight(good: Tree -> bool, phase: Phase) {
    phase.Prepared? || phase.Waiting? ==> good(TreeOf(phase.commit))
  }

  /** Recording these rows keeps `good`, on whatever branch. */
  ghost predicate Safe(codec: Codec, good: Tree -> bool, rows: seq<Row>) {
    forall tree, plan :: good(tree) && Plans(codec, tree, Distinct(rows), Some(plan)) ==> good(plan)
  }

  lemma EverywhereNext(codec: Codec, good: Tree -> bool, s: System, t: System, step: Step)
    requires Everywhere(good, s) && Next(codec, s, t, step)
    requires forall w :: 0 <= w < |s.writers| && s.writers[w].phase.Ready? && s.writers[w].attempts > 0 ==>
               Safe(codec, good, s.writers[w].rows)
    ensures Everywhere(good, t)
  {
    if !step.LandStep? {
      assert InFlight(good, s.writers[step.w].phase);
      assert InFlight(good, t.writers[step.w].phase);
    }
  }

  lemma ValidIsSafe(codec: Codec, rows: seq<Row>)
    requires codec.Faithful() && ValidRows(rows)
    ensures Safe(codec, tree => AllValid(codec, tree), rows)
  {
    DistinctIsBatch(rows);
    forall tree, plan | AllValid(codec, tree) && Plans(codec, tree, Distinct(rows), Some(plan))
      ensures AllValid(codec, plan)
    {
      var lanes :| AllRead(codec, tree, lanes, Distinct(rows)) && plan == Attempt(codec, tree, lanes, Distinct(rows));
      AttemptIsValid(codec, tree, lanes, Distinct(rows));
    }
  }

  lemma ClashlessIsSafe(codec: Codec, rows: seq<Row>)
    requires codec.Faithful() && NoClash(Distinct(rows))
    ensures Safe(codec, tree => Unique(codec, tree), rows)
  {
    DistinctFrom(rows);
    forall tree, plan | Unique(codec, tree) && Plans(codec, tree, Distinct(rows), Some(plan))
      ensures Unique(codec, plan)
    {
      var lanes :| AllRead(codec, tree, lanes, Distinct(rows)) && plan == Attempt(codec, tree, lanes, Distinct(rows));
      AttemptIsUnique(codec, tree, lanes, Distinct(rows));
    }
  }

  /** No step moves the tip but forward, or a writer that returned. */
  lemma StepMovesForward(codec: Codec, s: System, t: System, step: Step)
    requires Next(codec, s, t, step)
    ensures Ancestor(s.remote, t.remote) && |t.writers| == |s.writers|
    ensures forall w :: 0 <= w < |s.writers| ==>
              && t.writers[w].rows == s.writers[w].rows && t.writers[w].attempts <= s.writers[w].attempts
              && (s.writers[w].phase.Returned? ==> t.writers[w].phase.Returned?)
  {
  }

  // ----- Whole runs

  ghost predicate Run(codec: Codec, run: seq<System>, steps: seq<Step>) {
    && |run| == |steps| + 1 && Init(run[0])
    && forall i :: 0 <= i < |steps| ==> Next(codec, run[i], run[i + 1], steps[i])
  }

  lemma {:induction false} RunKeepsInv(codec: Codec, run: seq<System>, steps: seq<Step>, i: nat)
    requires codec.Faithful() && Run(codec, run, steps) && i < |run|
    ensures Inv(codec, run[0].remote, run[i])
    decreases i
  {
    if i == 0 {
      InvInit(codec, run[0]);
    } else {
      RunKeepsInv(codec, run, steps, i - 1);
      InvNext(codec, run[0].remote, run[i - 1], run[i], steps[i - 1]);
    }
  }

  lemma {:induction false} RunMovesForward(codec: Codec, run: seq<System>, steps: seq<Step>, i: nat, j: nat, w: int)
    requires Run(codec, run, steps) && i <= j < |run| && 0 <= w < |run[i].writers|
    ensures |run[j].writers| == |run[i].writers|
    ensures run[j].writers[w].rows == run[i].writers[w].rows && run[j].writers[w].attempts <= run[i].writers[w].attempts
    ensures run[i].writers[w].phase.Returned? ==> run[j].writers[w].phase.Returned?
    decreases j - i
  {
    if i < j {
      RunMovesForward(codec, run, steps, i, j - 1, w);
      StepMovesForward(codec, run[j - 1], run[j], steps[j - 1]);
    }
  }

  lemma {:induction false} SameWriters(codec: Codec, run: seq<System>, steps: seq<Step>, i: nat)
    requires Run(codec, run, steps) && i < |run|
    ensures |run[i].writers| == |run[0].writers|
    decreases i
  {
    if i > 0 {
      SameWriters(codec, run, steps, i - 1);
      StepMovesForward(codec, run[i - 1], run[i], steps[i - 1]);
    }
  }

  /** The writer's rows pass the check, and it is allowed an attempt. */
  predicate Tries(w: Writer) { ValidRows(w.rows) && w.attempts > 0 }

  lemma {:induction false} RunKeepsGood(codec: Codec, good: Tree -> bool, run: seq<System>, steps: seq<Step>, i: nat)
    requires codec.Faithful() && Run(codec, run, steps) && i < |run| && good(TreeOf(run[0].remote))
    requires forall w :: 0 <= w < |run[0].writers| && Tries(run[0].writers[w]) ==>
               Safe(codec, good, run[0].writers[w].rows)
    ensures Everywhere(good, run[i])
    decreases i
  {
    if i > 0 {
      RunKeepsGood(codec, good, run, steps, i - 1);
      RunKeepsInv(codec, run, steps, i - 1);
      var s := run[i - 1];
      forall w | 0 <= w < |s.writers| && s.writers[w].phase.Ready? && s.writers[w].attempts > 0
        ensures Safe(codec, good, s.writers[w].rows)
      {
        SameWriters(codec, run, steps, i - 1);
        RunMovesForward(codec, run, steps, 0, i - 1, w);
        assert WriterOk(codec, run[0].remote, s.remote, s.writers[w]);
      }
      EverywhereNext(codec, good, s, run[i], steps[i - 1]);
    }
  }

  /** On a branch of valid rows every row recorded at any moment is valid. */
  lemma BranchStaysValid(codec: Codec, run: seq<System>, steps: seq<Step>, i: nat)
    requires codec.Faithful() && Run(codec, run, steps) && i < |run|
    requires AllValid(codec, TreeOf(run[0].remote))
    ensures AllValid(codec, TreeOf(run[i].remote))
  {
    forall w | 0 <= w < |run[0].writers| && Tries(run[0].writers[w])
      ensures Safe(codec, tree => AllValid(codec, tree), run[0].writers[w].rows)
    {
      ValidIsSafe(codec, run[0].writers[w].rows);
    }
    RunKeepsGood(codec, tree => AllValid(codec, tree), run, steps, i);
  }

  /** No writer that makes an attempt has a batch that clashes. */
  predicate NoneClash(writers: seq<Writer>) {
    forall w :: 0 <= w < |writers| && Tries(writers[w]) ==> NoClash(Distinct(writers[w].rows))
  }

  /** Among writers that do not clash, on a branch that repeats no identity in
      a lane, whatever its rows, none is repeated at any moment. */
  lemma BranchStaysUnique(codec: Codec, run: seq<System>, steps: seq<Step>, i: nat)
    requires codec.Faithful() && Run(codec, run, steps) && i < |run|
    requires Unique(codec, TreeOf(run[0].remote)) && NoneClash(run[0].writers)
    ensures Unique(codec, TreeOf(run[i].remote))
  {
    forall w | 0 <= w < |run[0].writers| && Tries(run[0].writers[w])
      ensures Safe(codec, tree => Unique(codec, tree), run[0].writers[w].rows)
    {
      ClashlessIsSafe(codec, run[0].writers[w].rows);
    }
    RunKeepsGood(codec, tree => Unique(codec, tree), run, steps, i);
  }

  ghost predicate UniqueThroughout(codec: Codec, run: seq<System>) {
    forall i :: 0 <= i < |run| ==> Unique(codec, TreeOf(run[i].remote))
  }

  /** A run of these writers, from a branch that repeats no identity. */
  ghost predicate RunFrom(codec: Codec, writers: seq<Writer>, run: seq<System>, steps: seq<Step>) {
    Run(codec, run, steps) && run[0].writers == writers && Unique(codec, TreeOf(run[0].remote))
  }

  /** The branch of a clash, and the attempt on it. */
  lemma ClashPlans(codec: Codec, batch: seq<Row>) returns (tree: Tree, plan: Tree)
    requires codec.Faithful() && Batch(batch) && !NoClash(batch)
    ensures Unique(codec, tree) && Plans(codec, tree, batch, Some(plan)) && !Unique(codec, plan)
  {
    var i, j :| 0 <= i < |batch| && 0 <= j < |batch| && Clash(batch, i, j);
    ClashRepeats(codec, batch, i, j);
    tree := Bare(codec, batch[i]);
    plan := Attempt(codec, tree, BareLanes(batch, batch[i]), batch);
  }

  function InPhase(s: System, w: int, phase: Phase): System
    requires 0 <= w < |s.writers|
  {
    s.(writers := s.writers[w := s.writers[w].(phase := phase)])
  }

  lemma ChecksAndFetches(codec: Codec, s: System, w: int, plan: Tree)
    requires 0 <= w < |s.writers| && s.writers[w].phase == Asked && Tries(s.writers[w])
    requires Plans(codec, TreeOf(s.remote), Distinct(s.writers[w].rows), Some(plan))
    ensures Next(codec, s, InPhase(s, w, Ready), CheckStep(w))
    ensures Next(codec, InPhase(s, w, Ready), InPhase(s, w, Prepared(Commit(s.remote, plan, 0))),
                 FetchStep(w, Some(plan), 0))
  {
  }

  lemma SendsAndLands(codec: Codec, s: System, w: int, next: Commit)
    requires 0 <= w < |s.writers| && Ancestor(s.remote, next)
    ensures var t := InPhase(s, w, Waiting(next)).(sent := s.sent + {next});
            && Next(codec, InPhase(s, w, Prepared(next)), t, SendStep(w))
            && Next(codec, t, t.(remote := next), LandStep(next))
  {
  }

  lemma RunLonger(codec: Codec, run: seq<System>, steps: seq<Step>, t: System, step: Step)
    requires Run(codec, run, steps) && Next(codec, run[|run| - 1], t, step)
    ensures Run(codec, run + [t], steps + [step])
  {
    var longer, all := run + [t], steps + [step];
    forall i | 0 <= i < |all| ensures Next(codec, longer[i], longer[i + 1], all[i]) {
      if i < |steps| {
        assert longer[i] == run[i] && longer[i + 1] == run[i + 1] && all[i] == steps[i];
      }
    }
  }

  /** One writer alone: checked, fetched, sent, landed. */
  lemma AloneLands(codec: Codec, s: System, w: int, plan: Tree) returns (run: seq<System>, steps: seq<Step>)
    requires Init(s) && 0 <= w < |s.writers| && Tries(s.writers[w])
    requires Plans(codec, TreeOf(s.remote), Distinct(s.writers[w].rows), Some(plan))
    ensures Run(codec, run, steps) && run[0] == s && TreeOf(run[|run| - 1].remote) == plan
  {
    var next := Commit(s.remote, plan, 0);
    var t := InPhase(s, w, Waiting(next)).(sent := s.sent + {next});
    ChecksAndFetches(codec, s, w, plan);
    SendsAndLands(codec, s, w, next);
    run, steps := [s], [];
    RunLonger(codec, run, steps, InPhase(s, w, Ready), CheckStep(w));
    run, steps := run + [InPhase(s, w, Ready)], steps + [CheckStep(w)];
    RunLonger(codec, run, steps, InPhase(s, w, Prepared(next)), FetchStep(w, Some(plan), 0));
    run, steps := run + [InPhase(s, w, Prepared(next))], steps + [FetchStep(w, Some(plan), 0)];
    RunLonger(codec, run, steps, t, SendStep(w));
    run, steps := run + [t], steps + [SendStep(w)];
    RunLonger(codec, run, steps, t.(remote := next), LandStep(next));
    run, steps := run + [t.(remote := next)], steps + [LandStep(next)];
  }

  /** A writer whose batch clashes can repeat an identity by itself. */
  lemma ClashRuns(codec: Codec, writers: seq<Writer>, w: int) returns (run: seq<System>, steps: seq<Step>)
    requires codec.Faithful() && 0 <= w < |writers| && Tries(writers[w]) && !NoClash(Distinct(writers[w].rows))
    requires forall v :: 0 <= v < |writers| ==> writers[v].phase == Asked
    ensures RunFrom(codec, writers, run, steps) && !UniqueThroughout(codec, run)
  {
    DistinctIsBatch(writers[w].rows);
    var tree, plan := ClashPlans(codec, Distinct(writers[w].rows));
    run, steps := AloneLands(codec, System(Commit(NoBranch, tree, 0), {}, writers), w, plan);
    assert !Unique(codec, TreeOf(run[|run| - 1].remote));
  }

  /** Writers repeat no identity on any branch, in any run, if and only if none
      of them has a batch that clashes. */
  lemma UniqueExactlyWithoutClash(codec: Codec, writers: seq<Writer>)
    requires codec.Faithful() && forall w :: 0 <= w < |writers| ==> writers[w].phase == Asked
    ensures NoneClash(writers) <==>
            forall run, steps :: RunFrom(codec, writers, run, steps) ==> UniqueThroughout(codec, run)
  {
    if NoneClash(writers) {
      forall run: seq<System>, steps | RunFrom(codec, writers, run, steps) ensures UniqueThroughout(codec, run) {
        forall i | 0 <= i < |run| ensures Unique(codec, TreeOf(run[i].remote)) {
          BranchStaysUnique(codec, run, steps, i);
        }
      }
    } else {
      var w :| 0 <= w < |writers| && Tries(writers[w]) && !NoClash(Distinct(writers[w].rows));
      var run, steps := ClashRuns(codec, writers, w);
    }
  }

  /** Nothing recorded is ever lost, whatever the branch held and whoever
      writes: later files extend earlier ones. */
  lemma NothingIsLost(codec: Codec, run: seq<System>, steps: seq<Step>, i: nat, j: nat)
    requires codec.Faithful() && Run(codec, run, steps) && i <= j < |run|
    ensures Extends(codec, TreeOf(run[i].remote), TreeOf(run[j].remote))
  {
    RunKeepsInv(codec, run, steps, i);
    RunKeepsInv(codec, run, steps, j);
    RemoteMovesForward(codec, run, steps, i, j);
    AncestorExtends(codec, run[0].remote, run[i].remote, run[j].remote);
  }

  lemma {:induction false} RemoteMovesForward(codec: Codec, run: seq<System>, steps: seq<Step>, i: nat, j: nat)
    requires Run(codec, run, steps) && i <= j < |run|
    ensures Ancestor(run[i].remote, run[j].remote)
    decreases j - i
  {
    if i < j {
      RemoteMovesForward(codec, run, steps, i, j - 1);
      StepMovesForward(codec, run[j - 1], run[j], steps[j - 1]);
      AncestorTransitive(run[i].remote, run[j - 1].remote, run[j].remote);
    }
  }

  /** Once a writer returned, every row it was asked to record is on the
      branch, then and ever after. */
  lemma ReturnedIsRecorded(codec: Codec, run: seq<System>, steps: seq<Step>, i: nat, j: nat, w: int, k: int)
    requires codec.Faithful() && Run(codec, run, steps) && i <= j < |run|
    requires 0 <= w < |run[i].writers| && run[i].writers[w].phase.Returned?
    requires 0 <= k < |run[i].writers[w].rows|
    ensures var row := run[i].writers[w].rows[k];
            exists first :: first in run[i].writers[w].rows && IdentityOf(first) == IdentityOf(row) &&
                            Recorded(codec, TreeOf(run[j].remote), first.lane, IdentityOf(row))
    ensures OneLane(run[i].writers[w].rows) ==> Has(codec, TreeOf(run[j].remote), run[i].writers[w].rows)
  {
    RunMovesForward(codec, run, steps, i, j, w);
    RunKeepsInv(codec, run, steps, j);
    var rows, remote := run[i].writers[w].rows, TreeOf(run[j].remote);
    assert WriterOk(codec, run[0].remote, run[j].remote, run[j].writers[w]);
    assert Has(codec, remote, Distinct(rows));
    var n, m := KeptRow(rows, k);
    assert rows[m] in rows;
    assert Recorded(codec, remote, Distinct(rows)[n].lane, IdentityOf(Distinct(rows)[n]));
    if OneLane(rows) {
      HasKept(codec, remote, rows);
    }
  }

  /** And every promoted bundle of the rows kept is then pointed at by a
      recorded row. */
  lemma ReturnedHasAssets(codec: Codec, run: seq<System>, steps: seq<Step>, i: nat, j: nat, w: int)
    requires codec.Faithful() && Run(codec, run, steps) && i <= j < |run|
    requires 0 <= w < |run[i].writers| && run[i].writers[w].phase.Returned?
    ensures HasAssets(codec, TreeOf(run[j].remote), Distinct(run[i].writers[w].rows))
  {
    RunMovesForward(codec, run, steps, i, j, w);
    RunKeepsInv(codec, run, steps, j);
    assert WriterOk(codec, run[0].remote, run[j].remote, run[j].writers[w]);
  }
}
