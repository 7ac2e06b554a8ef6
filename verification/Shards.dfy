/** The test-shard scheduler: targets go, longest first, each to the shard with
    the least typical time so far. */
module Shards {

  /** Package, kind and name. */
  datatype Target = Target(package: string, kind: string, name: string)

  // ----- Order

  predicate TextLess(a: string, b: string) {
    b != "" && (a == "" || a[0] < b[0] || (a[0] == b[0] && TextLess(a[1..], b[1..])))
  }

  predicate TargetLess(a: Target, b: Target) {
    TextLess(a.package, b.package) ||
    (a.package == b.package &&
     (TextLess(a.kind, b.kind) || (a.kind == b.kind && TextLess(a.name, b.name))))
  }

  /** Longer first; targets of one duration in their own order. */
  predicate Before(seconds: Target -> nat, a: Target, b: Target) {
    seconds(a) > seconds(b) || (seconds(a) == seconds(b) && !TargetLess(b, a))
  }

  function Insert(seconds: Target -> nat, t: Target, sorted: seq<Target>): seq<Target> {
    if sorted == [] then [t]
    else if Before(seconds, t, sorted[0]) then [t] + sorted
    else [sorted[0]] + Insert(seconds, t, sorted[1..])
  }

  function LongestFirst(seconds: Target -> nat, targets: seq<Target>): seq<Target> {
    if targets == [] then [] else Insert(seconds, targets[0], LongestFirst(seconds, targets[1..]))
  }

  ghost predicate Descending(seconds: Target -> nat, targets: seq<Target>) {
    forall i, j :: 0 <= i < j < |targets| ==> seconds(targets[i]) >= seconds(targets[j])
  }

  /** No target comes after one it belongs before. */
  ghost predicate InOrder(seconds: Target -> nat, targets: seq<Target>) {
    forall i, j :: 0 <= i < j < |targets| ==> Before(seconds, targets[i], targets[j])
  }

  /** Two texts are equal, or exactly one is less. */
  lemma {:induction false} TextOrder(a: string, b: string)
    ensures !(TextLess(a, b) && TextLess(b, a)) && (TextLess(a, b) || TextLess(b, a) || a == b)
    ensures a == b ==> !TextLess(a, b)
    decreases |a|
  {
    if a != "" && b != "" && a[0] == b[0] {
      TextOrder(a[1..], b[1..]);
      if a[1..] == b[1..] {
        assert a == [a[0]] + a[1..] && b == [b[0]] + b[1..];
      }
    }
  }

  lemma {:induction false} TextTransitive(a: string, b: string, c: string)
    requires TextLess(a, b) && TextLess(b, c)
    ensures TextLess(a, c)
    decreases |a|
  {
    if a != "" && a[0] == b[0] && b[0] == c[0] {
      TextTransitive(a[1..], b[1..], c[1..]);
    }
  }

  lemma TargetOrder(a: Target, b: Target)
    ensures !(TargetLess(a, b) && TargetLess(b, a)) && (TargetLess(a, b) || TargetLess(b, a) || a == b)
  {
    TextOrder(a.package, b.package);
    TextOrder(a.kind, b.kind);
    TextOrder(a.name, b.name);
  }

  lemma TargetTransitive(a: Target, b: Target, c: Target)
    requires TargetLess(a, b) && TargetLess(b, c)
    ensures TargetLess(a, c)
  {
    if TextLess(a.package, b.package) && TextLess(b.package, c.package) {
      TextTransitive(a.package, b.package, c.package);
    }
    if TextLess(a.kind, b.kind) && TextLess(b.kind, c.kind) {
      TextTransitive(a.kind, b.kind, c.kind);
    }
    if TextLess(a.name, b.name) && TextLess(b.name, c.name) {
      TextTransitive(a.name, b.name, c.name);
    }
  }

  lemma BeforeTransitive(seconds: Target -> nat, a: Target, b: Target, c: Target)
    requires Before(seconds, a, b) && Before(seconds, b, c)
    ensures Before(seconds, a, c)
  {
    TargetOrder(a, b);
    TargetOrder(b, c);
    TargetOrder(a, c);
    if TargetLess(a, b) && TargetLess(b, c) {
      TargetTransitive(a, b, c);
    }
  }

  lemma BeforeTotal(seconds: Target -> nat, a: Target, b: Target)
    ensures Before(seconds, a, b) || Before(seconds, b, a)
  {
    TargetOrder(a, b);
  }

  lemma {:induction false} InsertKeeps(seconds: Target -> nat, t: Target, sorted: seq<Target>)
    ensures multiset(Insert(seconds, t, sorted)) == multiset{t} + multiset(sorted)
    decreases |sorted|
  {
    if sorted != [] && !Before(seconds, t, sorted[0]) {
      var rest := Insert(seconds, t, sorted[1..]);
      InsertKeeps(seconds, t, sorted[1..]);
      Consed(sorted[0], rest);
      Consed(sorted[0], sorted[1..]);
      assert sorted == [sorted[0]] + sorted[1..];
    } else {
      Consed(t, sorted);
      assert [t] + sorted == Insert(seconds, t, sorted);
    }
  }

  lemma Consed(t: Target, rest: seq<Target>)
    ensures multiset([t] + rest) == multiset{t} + multiset(rest)
  {
  }

  lemma {:induction false} InsertSorts(seconds: Target -> nat, t: Target, sorted: seq<Target>)
    requires InOrder(seconds, sorted)
    ensures InOrder(seconds, Insert(seconds, t, sorted))
    decreases |sorted|
  {
    if sorted != [] {
      if Before(seconds, t, sorted[0]) {
        forall i | 0 <= i < |sorted| ensures Before(seconds, t, sorted[i]) {
          if i > 0 {
            BeforeTransitive(seconds, t, sorted[0], sorted[i]);
          }
        }
        LedInOrder(seconds, t, sorted);
      } else {
        var rest := Insert(seconds, t, sorted[1..]);
        InsertSorts(seconds, t, sorted[1..]);
        forall i | 0 <= i < |rest| ensures Before(seconds, sorted[0], rest[i]) {
          BeforeTotal(seconds, t, sorted[0]);
          InsertedFrom(seconds, t, sorted[1..], i);
        }
        LedInOrder(seconds, sorted[0], rest);
      }
    }
  }

  lemma LedInOrder(seconds: Target -> nat, t: Target, rest: seq<Target>)
    requires InOrder(seconds, rest) && forall i :: 0 <= i < |rest| ==> Before(seconds, t, rest[i])
    ensures InOrder(seconds, [t] + rest)
  {
  }

  lemma {:induction false} InsertedFrom(seconds: Target -> nat, t: Target, sorted: seq<Target>, i: nat)
    requires i < |Insert(seconds, t, sorted)|
    ensures Insert(seconds, t, sorted)[i] == t || Insert(seconds, t, sorted)[i] in sorted
    decreases |sorted|
  {
    if sorted != [] && !Before(seconds, t, sorted[0]) && i > 0 {
      InsertedFrom(seconds, t, sorted[1..], i - 1);
    }
  }

  lemma {:induction false} SameTargets(seconds: Target -> nat, targets: seq<Target>)
    ensures multiset(LongestFirst(seconds, targets)) == multiset(targets)
    decreases |targets|
  {
    if targets != [] {
      SameTargets(seconds, targets[1..]);
      InsertKeeps(seconds, targets[0], LongestFirst(seconds, targets[1..]));
      Consed(targets[0], targets[1..]);
      assert targets == [targets[0]] + targets[1..];
    }
  }

  lemma {:induction false} LongestFirstSorts(seconds: Target -> nat, targets: seq<Target>)
    ensures InOrder(seconds, LongestFirst(seconds, targets))
    decreases |targets|
  {
    if targets != [] {
      LongestFirstSorts(seconds, targets[1..]);
      InsertSorts(seconds, targets[0], LongestFirst(seconds, targets[1..]));
    }
  }

  /** Longest first, those of one duration in their own order, and the same
      targets. */
  lemma SortedLongestFirst(seconds: Target -> nat, targets: seq<Target>)
    ensures InOrder(seconds, LongestFirst(seconds, targets)) && Descending(seconds, LongestFirst(seconds, targets))
    ensures multiset(LongestFirst(seconds, targets)) == multiset(targets)
  {
    SameTargets(seconds, targets);
    LongestFirstSorts(seconds, targets);
  }

  // ----- Assignments of jobs to shards

  /** An assignment of the jobs `d` to `m` shards: job i goes to shard a[i]. */
  ghost predicate Assigns(a: seq<nat>, n: nat, m: nat) {
    |a| == n && forall i :: 0 <= i < n ==> a[i] < m
  }

  function Sum(d: seq<nat>): nat {
    if d == [] then 0 else Sum(d[..|d| - 1]) + d[|d| - 1]
  }

  /** What shard `s` has to do. */
  function Load(d: seq<nat>, a: seq<nat>, s: nat): nat
    requires |a| == |d|
  {
    if d == [] then 0 else
    Load(d[..|d| - 1], a[..|d| - 1], s) + if a[|d| - 1] == s then d[|d| - 1] else 0
  }

  function Count(a: seq<nat>, s: nat): nat {
    if a == [] then 0 else Count(a[..|a| - 1], s) + if a[|a| - 1] == s then 1 else 0
  }

  function Total(d: seq<nat>, a: seq<nat>, m: nat): nat
    requires |a| == |d|
  {
    if m == 0 then 0 else Total(d, a, m - 1) + Load(d, a, m - 1)
  }

  function TotalCount(a: seq<nat>, m: nat): nat {
    if m == 0 then 0 else TotalCount(a, m - 1) + Count(a, m - 1)
  }

  /** Every job's time is some shard's, once. */
  lemma {:induction false} LoadsAddUp(d: seq<nat>, a: seq<nat>, m: nat)
    requires Assigns(a, |d|, m)
    ensures Total(d, a, m) == Sum(d)
    decreases |d|
  {
    if d == [] {
      NoLoad(d, a, m);
    } else {
      var n := |d| - 1;
      LoadsAddUp(d[..n], a[..n], m);
      OneMore(d, a, m);
    }
  }

  lemma {:induction false} NoLoad(d: seq<nat>, a: seq<nat>, m: nat)
    requires d == [] && a == []
    ensures Total(d, a, m) == 0
    decreases m
  {
    if m > 0 {
      NoLoad(d, a, m - 1);
    }
  }

  lemma {:induction false} OneMore(d: seq<nat>, a: seq<nat>, m: nat)
    requires d != [] && |a| == |d|
    ensures var n := |d| - 1;
            Total(d, a, m) == Total(d[..n], a[..n], m) + if a[n] < m then d[n] else 0
    decreases m
  {
    if m > 0 {
      OneMore(d, a, m - 1);
    }
  }

  lemma CountsAddUp(a: seq<nat>, m: nat)
    requires Assigns(a, |a|, m)
    ensures TotalCount(a, m) == |a|
  {
    var ones := seq(|a|, i => 1);
    CountIsLoad(a, ones, m);
    LoadsAddUp(ones, a, m);
    SumOfOnes(ones);
  }

  lemma {:induction false} CountIsLoad(a: seq<nat>, ones: seq<nat>, m: nat)
    requires |ones| == |a| && forall i :: 0 <= i < |a| ==> ones[i] == 1
    ensures TotalCount(a, m) == Total(ones, a, m)
    decreases m
  {
    if m > 0 {
      CountIsLoad(a, ones, m - 1);
      OneLoad(a, ones, m - 1);
    }
  }

  lemma {:induction false} OneLoad(a: seq<nat>, ones: seq<nat>, s: nat)
    requires |ones| == |a| && forall i :: 0 <= i < |a| ==> ones[i] == 1
    ensures Count(a, s) == Load(ones, a, s)
    decreases |a|
  {
    if a != [] {
      OneLoad(a[..|a| - 1], ones[..|a| - 1], s);
    }
  }

  lemma {:induction false} SumOfOnes(ones: seq<nat>)
    requires forall i :: 0 <= i < |ones| ==> ones[i] == 1
    ensures Sum(ones) == |ones|
    decreases |ones|
  {
    if ones != [] {
      SumOfOnes(ones[..|ones| - 1]);
    }
  }

  /** `bound` is at least every shard's load. */
  ghost predicate Makespan(d: seq<nat>, a: seq<nat>, m: nat, bound: nat)
    requires |a| == |d|
  {
    forall s :: 0 <= s < m ==> Load(d, a, s) <= bound
  }

  lemma {:induction false} TotalAtMost(d: seq<nat>, a: seq<nat>, m: nat, bound: nat)
    requires |a| == |d| && Makespan(d, a, m, bound)
    ensures Total(d, a, m) <= m * bound
    decreases m
  {
    if m > 0 {
      TotalAtMost(d, a, m - 1, bound);
      assert m * bound == (m - 1) * bound + bound;
    }
  }

  lemma {:induction false} TotalAtLeast(d: seq<nat>, a: seq<nat>, m: nat, bound: nat)
    requires |a| == |d| && forall s :: 0 <= s < m ==> Load(d, a, s) >= bound
    ensures Total(d, a, m) >= m * bound
    decreases m
  {
    if m > 0 {
      TotalAtLeast(d, a, m - 1, bound);
      assert m * bound == (m - 1) * bound + bound;
    }
  }

  /** A prefix of the jobs makes no shard busier. */
  lemma {:induction false} PrefixLoad(d: seq<nat>, a: seq<nat>, n: nat, s: nat)
    requires |a| == |d| && n <= |d|
    ensures Load(d[..n], a[..n], s) <= Load(d, a, s)
    decreases |d| - n
  {
    if n < |d| {
      PrefixLoad(d, a, n + 1, s);
      assert d[..n + 1][..n] == d[..n] && a[..n + 1][..n] == a[..n];
    } else {
      assert d[..n] == d && a[..n] == a;
    }
  }

  // ----- Greedy

  /** The greedy assignment: each job went to a shard that was lightest. */
  ghost predicate Greedy(d: seq<nat>, a: seq<nat>, m: nat) {
    && Assigns(a, |d|, m)
    && forall i :: 0 <= i < |d| ==> Lightest(d[..i], a[..i], m, a[i])
  }

  ghost predicate Lightest(d: seq<nat>, a: seq<nat>, m: nat, shard: nat)
    requires |a| == |d|
  {
    forall s :: 0 <= s < m ==> Load(d, a, shard) <= Load(d, a, s)
  }

  /** The last job placed on a shard is all that shard has beyond what every
      shard had before it. */
  lemma LastPlaced(d: seq<nat>, a: seq<nat>, m: nat, s: nat) returns (j: nat)
    requires Greedy(d, a, m) && s < m && Load(d, a, s) > 0
    ensures j < |d| && a[j] == s
    ensures Load(d, a, s) == Load(d[..j], a[..j], s) + d[j]
    decreases |d|
  {
    var n := |d| - 1;
    if a[n] == s {
      j := n;
    } else {
      assert Greedy(d[..n], a[..n], m) by {
        forall i | 0 <= i < n ensures Lightest(d[..n][..i], a[..n][..i], m, a[..n][i]) {
          assert d[..n][..i] == d[..i] && a[..n][..i] == a[..i];
        }
      }
      j := LastPlaced(d[..n], a[..n], m, s);
      assert d[..n][..j] == d[..j] && a[..n][..j] == a[..j];
    }
  }

  /** Greedy's bound for one shard: m times its load is at most everything up
      to its last job, plus m - 1 times that job. */
  lemma GreedyBound(d: seq<nat>, a: seq<nat>, m: nat, j: nat)
    requires Greedy(d, a, m) && j < |d|
    ensures m * (Load(d[..j], a[..j], a[j]) + d[j]) <= Sum(d[..j + 1]) + (m - 1) * d[j]
  {
    var before := Load(d[..j], a[..j], a[j]);
    TotalAtLeast(d[..j], a[..j], m, before);
    LoadsAddUp(d[..j], a[..j], m);
    assert d[..j + 1][..j] == d[..j];
    assert m * (before + d[j]) == m * before + m * d[j];
    assert m * d[j] == (m - 1) * d[j] + d[j];
  }

  // ----- Graham's bound

  /** The jobs of one shard, when there are one or two. */
  lemma {:induction false} CountZero(d: seq<nat>, a: seq<nat>, s: nat)
    requires |a| == |d| && Count(a, s) == 0
    ensures Load(d, a, s) == 0
    decreases |a|
  {
    if a != [] {
      CountZero(d[..|a| - 1], a[..|a| - 1], s);
    }
  }

  lemma {:induction false} OnlyJob(d: seq<nat>, a: seq<nat>, s: nat) returns (i: nat)
    requires |a| == |d| && Count(a, s) == 1
    ensures i < |a| && a[i] == s && Load(d, a, s) == d[i]
    decreases |a|
  {
    var n := |a| - 1;
    if a[n] == s {
      CountZero(d[..n], a[..n], s);
      i := n;
    } else {
      i := OnlyJob(d[..n], a[..n], s);
    }
  }

  /** A shard is at least as busy as its jobs, each at least `p`. */
  lemma {:induction false} CountTimes(d: seq<nat>, a: seq<nat>, s: nat, p: nat)
    requires |a| == |d| && forall i :: 0 <= i < |d| ==> d[i] >= p
    ensures Load(d, a, s) >= Count(a, s) * p
    decreases |a|
  {
    if a != [] {
      var n := |a| - 1;
      CountTimes(d[..n], a[..n], s, p);
      assert (Count(a[..n], s) + 1) * p == Count(a[..n], s) * p + p;
    }
  }

  /** A shard holding job `i` and anything else does both. */
  lemma {:induction false} NotAlone(d: seq<nat>, a: seq<nat>, s: nat, p: nat, i: nat)
    requires |a| == |d| && i < |d| && a[i] == s && forall k :: 0 <= k < |d| ==> d[k] >= p
    ensures Count(a, s) >= 1
    ensures Load(d, a, s) >= d[i] + (Count(a, s) - 1) * p
    decreases |a|
  {
    var n := |a| - 1;
    if i == n {
      CountTimes(d[..n], a[..n], s, p);
    } else {
      NotAlone(d[..n], a[..n], s, p, i);
      if a[n] == s {
        assert Count(a[..n], s) * p == (Count(a[..n], s) - 1) * p + p;
      }
    }
  }

  /** The shards below `m` that hold exactly one job. */
  ghost function Singles(a: seq<nat>, m: nat): set<nat> {
    set s | 0 <= s < m && Count(a, s) == 1
  }

  lemma SinglesStep(a: seq<nat>, m: nat)
    requires m > 0
    ensures Singles(a, m) == Singles(a, m - 1) + if Count(a, m - 1) == 1 then {m - 1} else {}
    ensures |Singles(a, m)| == |Singles(a, m - 1)| + if Count(a, m - 1) == 1 then 1 else 0
  {
    assert Singles(a, m) == Singles(a, m - 1) + if Count(a, m - 1) == 1 then {m - 1} else {};
  }

  lemma {:induction false} ManyJobs(a: seq<nat>, m: nat)
    requires forall s :: 0 <= s < m ==> Count(a, s) >= 1
    ensures TotalCount(a, m) >= 2 * m - |Singles(a, m)|
    decreases m
  {
    if m > 0 {
      ManyJobs(a, m - 1);
      SinglesStep(a, m);
    }
  }

  lemma {:induction false} FewJobs(a: seq<nat>, m: nat)
    requires forall s :: 0 <= s < m ==> Count(a, s) <= 2
    ensures TotalCount(a, m) <= 2 * m - |Singles(a, m)|
    decreases m
  {
    if m > 0 {
      FewJobs(a, m - 1);
      SinglesStep(a, m);
    }
  }

  lemma {:induction false} InjectiveImage(s: set<nat>, t: set<nat>, f: map<nat, nat>)
    requires s <= f.Keys
    requires forall x :: x in s ==> f[x] in t
    requires forall x, y :: x in s && y in s && f[x] == f[y] ==> x == y
    ensures |s| <= |t|
    decreases |s|
  {
    if s != {} {
      var x :| x in s;
      InjectiveImage(s - {x}, t - {f[x]}, f);
    }
  }

  /** What shard `s` would have with the last job on it as well. */
  function LoadWith(d: seq<nat>, a: seq<nat>, s: nat): nat
    requires |d| > 0 && |a| == |d| - 1
  {
    Load(d[..|d| - 1], a, s) + d[|d| - 1]
  }

  /** Greedy's shard `s` holds one job, too long to share a shard in `b`: there
      it is alone too. */
  lemma AloneToo(d: seq<nat>, a: seq<nat>, b: seq<nat>, m: nat, s: nat, bound: nat) returns (i: nat)
    requires |d| > 0 && Assigns(a, |d| - 1, m) && Assigns(b, |d|, m) && Makespan(d, b, m, bound)
    requires forall k :: 0 <= k < |d| ==> d[k] >= d[|d| - 1]
    requires s < m && Count(a, s) == 1 && LoadWith(d, a, s) > bound && d[|d| - 1] > 0
    ensures i < |d| - 1 && a[i] == s && Count(b, b[i]) == 1
  {
    var j := |d| - 1;
    i := OnlyJob(d[..j], a, s);
    NotAlone(d, b, b[i], d[j], i);
  }

  /** If no two jobs alone in greedy's shards meet in `b`, the map of the
      first to the second is one to one. */
  lemma AloneInBoth(d: seq<nat>, a: seq<nat>, b: seq<nat>, m: nat, bound: nat)
    requires |d| > 0 && Assigns(a, |d| - 1, m) && Assigns(b, |d|, m) && Makespan(d, b, m, bound)
    requires forall k :: 0 <= k < |d| ==> d[k] >= d[|d| - 1]
    requires d[|d| - 1] > 0
    requires forall s :: 0 <= s < m ==> LoadWith(d, a, s) > bound
    ensures |Singles(a, m)| <= |Singles(b, m)|
  {
    var f: map<nat, nat> := map[];
    var job: map<nat, nat> := map[];
    var todo := Singles(a, m);
    while todo != {}
      invariant todo <= Singles(a, m)
      invariant f.Keys == job.Keys == Singles(a, m) - todo
      invariant forall s :: s in f ==> job[s] < |d| - 1 && a[job[s]] == s && f[s] == b[job[s]] && Count(b, f[s]) == 1
      decreases |todo|
    {
      var s :| s in todo;
      var i := AloneToo(d, a, b, m, s, bound);
      f, job := f[s := b[i]], job[s := i];
      todo := todo - {s};
    }
    forall s | s in Singles(a, m) ensures f[s] in Singles(b, m) {
      assert b[job[s]] < m;
    }
    forall s, t | s in Singles(a, m) && t in Singles(a, m) && f[s] == f[t] ensures s == t {
      OneJobOnly(b, f[s], job[s], job[t]);
    }
    InjectiveImage(Singles(a, m), Singles(b, m), f);
  }

  lemma {:induction false} OneJobOnly(b: seq<nat>, s: nat, i: nat, j: nat)
    requires Count(b, s) <= 1 && i < |b| && j < |b| && b[i] == s && b[j] == s
    ensures i == j
    decreases |b|
  {
    var n := |b| - 1;
    if i < n && j < n {
      OneJobOnly(b[..n], s, i, j);
    } else if i != j {
      Positive(b[..n], s, if i < n then i else j);
    }
  }

  lemma {:induction false} Positive(b: seq<nat>, s: nat, i: nat)
    requires i < |b| && b[i] == s
    ensures Count(b, s) >= 1
    decreases |b|
  {
    if i < |b| - 1 {
      Positive(b[..|b| - 1], s, i);
    }
  }

  /** No shard of `a` has room for the last job. */
  ghost predicate Crowded(d: seq<nat>, a: seq<nat>, m: nat, bound: nat)
    requires |d| > 0 && |a| == |d| - 1
  {
    forall s :: 0 <= s < m ==> LoadWith(d, a, s) > bound
  }

  lemma NoneIdle(d: seq<nat>, a: seq<nat>, b: seq<nat>, m: nat, bound: nat, s: nat)
    requires |d| > 0 && Assigns(a, |d| - 1, m) && Assigns(b, |d|, m) && Makespan(d, b, m, bound)
    requires Crowded(d, a, m, bound) && s < m
    ensures Count(a, s) >= 1
  {
    var j := |d| - 1;
    TakesJob(d, b, j);
    assert Load(d, b, b[j]) <= bound < LoadWith(d, a, s);
    if Count(a, s) == 0 {
      CountZero(d[..j], a, s);
    }
  }

  lemma AtMostTwo(d: seq<nat>, b: seq<nat>, m: nat, bound: nat, s: nat)
    requires |d| > 0 && Assigns(b, |d|, m) && Makespan(d, b, m, bound) && s < m
    requires (forall k :: 0 <= k < |d| ==> d[k] >= d[|d| - 1]) && 3 * d[|d| - 1] > bound
    ensures Count(b, s) <= 2
  {
    CountTimes(d, b, s, d[|d| - 1]);
  }

  /** With one job or more on every shard there, and two or fewer here. */
  lemma TooManyJobs(a: seq<nat>, b: seq<nat>, m: nat)
    requires Assigns(a, |a|, m) && Assigns(b, |b|, m) && |Singles(a, m)| <= |Singles(b, m)|
    requires (forall s :: 0 <= s < m ==> Count(a, s) >= 1) && forall s :: 0 <= s < m ==> Count(b, s) <= 2
    ensures |b| <= |a|
  {
    ManyJobs(a, m);
    FewJobs(b, m);
    CountsAddUp(a, m);
    CountsAddUp(b, m);
  }

  /** Where the last job is longer than a third of any schedule's makespan, no
      schedule beats greedy. */
  lemma LongJobsFit(d: seq<nat>, a: seq<nat>, b: seq<nat>, m: nat, bound: nat)
    requires |d| > 0 && Assigns(a, |d| - 1, m) && Assigns(b, |d|, m) && Makespan(d, b, m, bound)
    requires forall k :: 0 <= k < |d| ==> d[k] >= d[|d| - 1]
    requires 3 * d[|d| - 1] > bound
    ensures exists s :: 0 <= s < m && LoadWith(d, a, s) <= bound
  {
    if Crowded(d, a, m, bound) {
      AloneInBoth(d, a, b, m, bound);
      forall s | 0 <= s < m ensures Count(a, s) >= 1 {
        NoneIdle(d, a, b, m, bound, s);
      }
      forall s | 0 <= s < m ensures Count(b, s) <= 2 {
        AtMostTwo(d, b, m, bound, s);
      }
      TooManyJobs(a, b, m);
      assert false;
    }
  }

  /** Graham's bound for one shard of a greedy, longest-first schedule, against
      any schedule at all. */
  lemma ShardBound(d: seq<nat>, a: seq<nat>, b: seq<nat>, m: nat, s: nat, best: nat)
    requires Greedy(d, a, m) && s < m && Assigns(b, |d|, m) && Makespan(d, b, m, best)
    requires forall i, j :: 0 <= i < j < |d| ==> d[i] >= d[j]
    ensures 3 * m * Load(d, a, s) <= (4 * m - 1) * best
  {
    var load := Load(d, a, s);
    if load == 0 {
      assert (4 * m - 1) * best >= 0;
    } else {
      var j := LastPlaced(d, a, m, s);
      PrefixSpan(d, b, m, best, j + 1);
      if 3 * d[j] > best {
        LongLast(d, a, b[..j + 1], m, j, best);
        Scale(m, load, best);
      } else {
        ShortLast(d, a, b[..j + 1], m, j, best);
        ShortJob(m, load, d[j], best);
      }
    }
  }

  lemma ShortLast(d: seq<nat>, a: seq<nat>, b: seq<nat>, m: nat, j: nat, best: nat)
    requires Greedy(d, a, m) && j < |d| && Assigns(b, j + 1, m) && Makespan(d[..j + 1], b, m, best)
    ensures m * (Load(d[..j], a[..j], a[j]) + d[j]) <= m * best + (m - 1) * d[j]
  {
    GreedyBound(d, a, m, j);
    LoadsAddUp(d[..j + 1], b, m);
    TotalAtMost(d[..j + 1], b, m, best);
  }

  lemma PrefixSpan(d: seq<nat>, b: seq<nat>, m: nat, best: nat, n: nat)
    requires Assigns(b, |d|, m) && Makespan(d, b, m, best) && n <= |d|
    ensures Makespan(d[..n], b[..n], m, best)
  {
    forall t | 0 <= t < m ensures Load(d[..n], b[..n], t) <= best {
      PrefixLoad(d, b, n, t);
    }
  }

  lemma LongLast(d: seq<nat>, a: seq<nat>, b: seq<nat>, m: nat, j: nat, best: nat)
    requires Greedy(d, a, m) && j < |d| && Assigns(b, j + 1, m) && Makespan(d[..j + 1], b, m, best)
    requires forall i, k :: 0 <= i < k < |d| ==> d[i] >= d[k]
    requires 3 * d[j] > best
    ensures Load(d[..j], a[..j], a[j]) + d[j] <= best
  {
    var first, mine := d[..j + 1], a[..j];
    assert first[..j] == d[..j];
    LongJobsFit(first, mine, b, m, best);
    var t :| 0 <= t < m && LoadWith(first, mine, t) <= best;
    assert Lightest(d[..j], mine, m, a[j]);
  }

  lemma Scale(m: nat, load: nat, best: nat)
    requires m >= 1 && load <= best
    ensures 3 * m * load <= (4 * m - 1) * best
  {
    assert 3 * m * load <= 3 * m * best;
    assert 3 * m * best + (m - 1) * best == (4 * m - 1) * best;
    assert (m - 1) * best >= 0;
  }

  lemma ShortJob(m: nat, load: nat, p: nat, best: nat)
    requires m >= 1 && 3 * p <= best && m * load <= m * best + (m - 1) * p
    ensures 3 * m * load <= (4 * m - 1) * best
  {
    assert 3 * m * load == 3 * (m * load);
    assert (m - 1) * (3 * p) <= (m - 1) * best;
    assert 3 * ((m - 1) * p) == (m - 1) * (3 * p);
    assert 3 * (m * best) + (m - 1) * best == (4 * m - 1) * best;
  }

  // ----- The schedule the script makes

  function Durations(seconds: Target -> nat, targets: seq<Target>): (d: seq<nat>)
    ensures |d| == |targets| && forall i :: 0 <= i < |d| ==> d[i] == seconds(targets[i])
  {
    seq(|targets|, i requires 0 <= i < |targets| => seconds(targets[i]))
  }

  /** The first of the lightest shards among the first `n`. */
  function FirstLightest(d: seq<nat>, a: seq<nat>, n: nat): (s: nat)
    requires |a| == |d| && n > 0
    ensures s < n && Lightest(d, a, n, s)
    ensures forall t :: 0 <= t < s ==> Load(d, a, t) > Load(d, a, s)
    decreases n
  {
    if n == 1 then 0 else
    var s := FirstLightest(d, a, n - 1);
    if Load(d, a, n - 1) < Load(d, a, s) then n - 1 else s
  }

  function Assignment(d: seq<nat>, m: nat): (a: seq<nat>)
    requires m > 0
    ensures Assigns(a, |d|, m)
    decreases |d|
  {
    if d == [] then [] else
    var before := Assignment(d[..|d| - 1], m);
    before + [FirstLightest(d[..|d| - 1], before, m)]
  }

  lemma {:induction false} AssignmentPrefix(d: seq<nat>, m: nat, n: nat)
    requires m > 0 && n <= |d|
    ensures Assignment(d, m)[..n] == Assignment(d[..n], m)
    decreases |d|
  {
    if n < |d| {
      AssignmentPrefix(d[..|d| - 1], m, n);
      assert d[..|d| - 1][..n] == d[..n];
    } else {
      assert d[..n] == d;
    }
  }

  lemma AssignmentIsGreedy(d: seq<nat>, m: nat)
    requires m > 0
    ensures Greedy(d, Assignment(d, m), m)
  {
    var a := Assignment(d, m);
    forall i | 0 <= i < |d| ensures Lightest(d[..i], a[..i], m, a[i]) {
      AssignmentPrefix(d, m, i);
      AssignmentPrefix(d, m, i + 1);
      assert d[..i + 1][..i] == d[..i];
      assert a[..i + 1][i] == a[i];
    }
  }

  /** The targets of shard `s`, in the order they were placed. */
  function ShardOf(targets: seq<Target>, a: seq<nat>, s: nat): seq<Target>
    requires |a| == |targets|
    decreases |targets|
  {
    if targets == [] then [] else
    var n := |targets| - 1;
    ShardOf(targets[..n], a[..n], s) + if a[n] == s then [targets[n]] else []
  }

  /** How often `t` is listed. */
  function Times(targets: seq<Target>, t: Target): nat {
    if targets == [] then 0
    else Times(targets[..|targets| - 1], t) + if targets[|targets| - 1] == t then 1 else 0
  }

  lemma {:induction false} TimesIs(targets: seq<Target>, t: Target)
    ensures Times(targets, t) == multiset(targets)[t]
    decreases |targets|
  {
    if targets != [] {
      var n := |targets| - 1;
      TimesIs(targets[..n], t);
      assert targets == targets[..n] + [targets[n]];
    }
  }

  /** How often `t` is in the first `m` shards together. */
  function TimesIn(targets: seq<Target>, a: seq<nat>, m: nat, t: Target): nat
    requires |a| == |targets|
    decreases m
  {
    if m == 0 then 0 else TimesIn(targets, a, m - 1, t) + Times(ShardOf(targets, a, m - 1), t)
  }

  /** One for each place `t` is listed at, as jobs to share out. */
  function Marks(targets: seq<Target>, t: Target): (w: seq<nat>)
    ensures |w| == |targets| && forall i :: 0 <= i < |w| ==> w[i] == if targets[i] == t then 1 else 0
  {
    seq(|targets|, i requires 0 <= i < |targets| => if targets[i] == t then 1 else 0)
  }

  lemma {:induction false} ShardTimes(targets: seq<Target>, a: seq<nat>, s: nat, t: Target)
    requires |a| == |targets|
    ensures Times(ShardOf(targets, a, s), t) == Load(Marks(targets, t), a, s)
    decreases |targets|
  {
    if targets != [] {
      var n := |targets| - 1;
      ShardTimes(targets[..n], a[..n], s, t);
      assert Marks(targets, t)[..n] == Marks(targets[..n], t);
      var before := ShardOf(targets[..n], a[..n], s);
      if a[n] == s {
        TimesLast(before, targets[n], t);
      } else {
        assert ShardOf(targets, a, s) == before;
      }
    }
  }

  lemma TimesLast(before: seq<Target>, last: Target, t: Target)
    ensures Times(before + [last], t) == Times(before, t) + if last == t then 1 else 0
  {
    assert (before + [last])[..|before|] == before;
  }

  lemma {:induction false} TimesAddUp(targets: seq<Target>, t: Target)
    ensures Times(targets, t) == Sum(Marks(targets, t))
    decreases |targets|
  {
    if targets != [] {
      var n := |targets| - 1;
      TimesAddUp(targets[..n], t);
      assert Marks(targets, t)[..n] == Marks(targets[..n], t);
    }
  }

  lemma {:induction false} TimesInIs(targets: seq<Target>, a: seq<nat>, m: nat, t: Target)
    requires |a| == |targets|
    ensures TimesIn(targets, a, m, t) == Total(Marks(targets, t), a, m)
    decreases m
  {
    if m > 0 {
      TimesInIs(targets, a, m - 1, t);
      ShardTimes(targets, a, m - 1, t);
    }
  }

  lemma ShardsPartition(targets: seq<Target>, a: seq<nat>, m: nat, t: Target)
    requires Assigns(a, |targets|, m)
    ensures TimesIn(targets, a, m, t) == Times(targets, t)
  {
    TimesInIs(targets, a, m, t);
    LoadsAddUp(Marks(targets, t), a, m);
    TimesAddUp(targets, t);
  }

  /** The schedule of `targets` on `m` shards. */
  function Schedule(seconds: Target -> nat, targets: seq<Target>, m: nat, s: nat): seq<Target>
    requires m > 0
  {
    var order := LongestFirst(seconds, targets);
    ShardOf(order, Assignment(Durations(seconds, order), m), s)
  }

  /** Every target is in exactly one shard, as often as it was listed. */
  lemma EveryTargetOnce(seconds: Target -> nat, targets: seq<Target>, m: nat, t: Target)
    requires m > 0
    ensures var order := LongestFirst(seconds, targets);
            TimesIn(order, Assignment(Durations(seconds, order), m), m, t) == multiset(targets)[t]
  {
    var order := LongestFirst(seconds, targets);
    SortedLongestFirst(seconds, targets);
    ShardsPartition(order, Assignment(Durations(seconds, order), m), m, t);
    TimesIs(order, t);
  }

  lemma {:induction false} ShardSeconds(seconds: Target -> nat, targets: seq<Target>, a: seq<nat>, s: nat)
    requires |a| == |targets|
    ensures Sum(Durations(seconds, ShardOf(targets, a, s))) == Load(Durations(seconds, targets), a, s)
    decreases |targets|
  {
    if targets != [] {
      var n := |targets| - 1;
      ShardSeconds(seconds, targets[..n], a[..n], s);
      assert Durations(seconds, targets)[..n] == Durations(seconds, targets[..n]);
      if a[n] == s {
        var mine := ShardOf(targets, a, s);
        assert Durations(seconds, mine)[..|mine| - 1] == Durations(seconds, ShardOf(targets[..n], a[..n], s));
      } else {
        assert ShardOf(targets, a, s) == ShardOf(targets[..n], a[..n], s);
      }
    }
  }

  /** No shard takes more than 4/3 - 1/(3m) of what the busiest shard of any
      other schedule of the same targets takes. */
  lemma WithinGraham(seconds: Target -> nat, targets: seq<Target>, m: nat, s: nat, other: seq<nat>, best: nat)
    requires s < m && Assigns(other, |LongestFirst(seconds, targets)|, m)
    requires Makespan(Durations(seconds, LongestFirst(seconds, targets)), other, m, best)
    ensures 3 * m * Sum(Durations(seconds, Schedule(seconds, targets, m, s))) <= (4 * m - 1) * best
  {
    var order := LongestFirst(seconds, targets);
    var d := Durations(seconds, order);
    SortedLongestFirst(seconds, targets);
    AssignmentIsGreedy(d, m);
    ShardBound(d, Assignment(d, m), other, m, s, best);
    ShardSeconds(seconds, order, Assignment(d, m), s);
  }

  lemma LengthKept(seconds: Target -> nat, targets: seq<Target>)
    ensures |LongestFirst(seconds, targets)| == |targets|
  {
    SortedLongestFirst(seconds, targets);
    assert |multiset(LongestFirst(seconds, targets))| == |multiset(targets)|;
  }

  /** The first jobs go to the first shards, one each. */
  lemma {:induction false} FirstRound(d: seq<nat>, m: nat, i: nat)
    requires m > 0 && i < |d| && i < m && forall k :: 0 <= k < |d| ==> d[k] > 0
    ensures Assignment(d, m)[i] == i
    decreases i
  {
    var a := Assignment(d, m);
    var before := a[..i];
    forall k | 0 <= k < i ensures before[k] == k {
      FirstRound(d, m, k);
    }
    RoundLoads(d[..i], before, i);
    forall t | 0 <= t < i ensures Load(d[..i], before, t) > 0 {
      TakesJob(d[..i], before, t);
    }
    assert Lightest(d[..i], before, m, i);
    NextShard(d, m, i, i);
  }

  lemma {:induction false} RoundLoads(d: seq<nat>, a: seq<nat>, s: nat)
    requires |a| == |d| && forall k :: 0 <= k < |a| ==> a[k] != s
    ensures Load(d, a, s) == 0
    decreases |a|
  {
    if a != [] {
      RoundLoads(d[..|a| - 1], a[..|a| - 1], s);
    }
  }

  lemma {:induction false} TakesJob(d: seq<nat>, a: seq<nat>, i: nat)
    requires |a| == |d| && i < |d|
    ensures Load(d, a, a[i]) >= d[i]
    decreases |a|
  {
    if i < |a| - 1 {
      TakesJob(d[..|a| - 1], a[..|a| - 1], i);
    }
  }

  lemma {:induction false} InShard(targets: seq<Target>, a: seq<nat>, s: nat)
    requires |a| == |targets|
    ensures ShardOf(targets, a, s) == [] <==> forall i :: 0 <= i < |a| ==> a[i] != s
    decreases |a|
  {
    if targets != [] {
      InShard(targets[..|a| - 1], a[..|a| - 1], s);
    }
  }

  /** A shard is left without targets exactly when there are too few. */
  lemma EmptyExactlyBeyond(seconds: Target -> nat, targets: seq<Target>, m: nat, s: nat)
    requires s < m && forall t :: seconds(t) > 0
    ensures Schedule(seconds, targets, m, s) == [] <==> |targets| <= s
  {
    LengthKept(seconds, targets);
    var order := LongestFirst(seconds, targets);
    var d := Durations(seconds, order);
    var a := Assignment(d, m);
    InShard(order, a, s);
    if s < |targets| {
      FirstRound(d, m, s);
    } else {
      forall i | 0 <= i < |a| ensures a[i] != s {
        FirstRound(d, m, i);
      }
    }
  }

  const LIVE_REGTEST := Target("qbit-prism-server", "test", "live_regtest")
  const SERVER_LIB := Target("qbit-prism-server", "lib", "qbit_prism_server")
  const STORM_RESTART := Target("qbit-prism-server", "test", "candidate_storm_restart")
  const COMPACT_SCALE := Target("qbit-prism-server", "test", "compact_runtime_scale")
  const LEDGER_POSTGRES := Target("qbit-prism-server", "test", "ledger_postgres")

  function TypicalSeconds(t: Target): (n: nat)
    ensures n > 0
  {
    if t == LIVE_REGTEST then 700
    else if t == SERVER_LIB then 330
    else if t == STORM_RESTART then 270
    else if t == COMPACT_SCALE then 240
    else if t == LEDGER_POSTGRES then 210
    else 20
  }

  /** With the durations in use a shard is empty exactly when there are too few
      targets. */
  lemma TypicalShards(targets: seq<Target>, m: nat, s: nat)
    requires s < m
    ensures Schedule(TypicalSeconds, targets, m, s) == [] <==> |targets| <= s
  {
    EmptyExactlyBeyond(TypicalSeconds, targets, m, s);
  }

  /** Targets in their own order. */
  ghost predicate Ordered(targets: seq<Target>) {
    forall i, j :: 0 <= i < j < |targets| ==> !TargetLess(targets[j], targets[i])
  }

  lemma SortedTargets(targets: seq<Target>)
    ensures Ordered(LongestFirst(t => 0, targets)) && multiset(LongestFirst(t => 0, targets)) == multiset(targets)
  {
    var sorted := LongestFirst(t => 0, targets);
    SortedLongestFirst(t => 0, targets);
    forall i, j | 0 <= i < j < |sorted| ensures !TargetLess(sorted[j], sorted[i]) {
      assert Before(t => 0, sorted[i], sorted[j]);
    }
  }

  datatype Outcome = BadIndex | NoTargetsLeft | Commands(targets: seq<Target>)

  method LightestOf(loads: array<nat>) returns (lightest: nat)
    requires loads.Length > 0
    ensures lightest < loads.Length
    ensures forall t :: 0 <= t < loads.Length ==> loads[lightest] <= loads[t]
    ensures forall t :: 0 <= t < lightest ==> loads[t] > loads[lightest]
  {
    lightest := 0;
    for s := 1 to loads.Length
      invariant lightest < s
      invariant forall t :: 0 <= t < s ==> loads[lightest] <= loads[t]
      invariant forall t :: 0 <= t < lightest ==> loads[t] > loads[lightest]
    {
      if loads[s] < loads[lightest] {
        lightest := s;
      }
    }
  }

  lemma FirstLightestIs(d: seq<nat>, a: seq<nat>, m: nat, s: nat)
    requires |a| == |d| && s < m && Lightest(d, a, m, s)
    requires forall t :: 0 <= t < s ==> Load(d, a, t) > Load(d, a, s)
    ensures FirstLightest(d, a, m) == s
  {
    var other := FirstLightest(d, a, m);
    assert Load(d, a, other) <= Load(d, a, s) && Load(d, a, s) <= Load(d, a, other);
  }

  /** The lightest shard is where the assignment puts the next job. */
  lemma NextShard(d: seq<nat>, m: nat, k: nat, s: nat)
    requires k < |d| && s < m && Lightest(d[..k], Assignment(d, m)[..k], m, s)
    requires forall t :: 0 <= t < s ==> Load(d[..k], Assignment(d, m)[..k], t) > Load(d[..k], Assignment(d, m)[..k], s)
    ensures Assignment(d, m)[k] == s
  {
    var a := Assignment(d, m);
    AssignmentPrefix(d, m, k);
    AssignmentPrefix(d, m, k + 1);
    assert d[..k + 1][..k] == d[..k];
    FirstLightestIs(d[..k], a[..k], m, s);
    assert a[..k + 1][k] == a[k];
  }

  /** What the two lists hold once the first `k` targets are placed. */
  ghost predicate Placed(loads: seq<nat>, shards: seq<seq<Target>>, order: seq<Target>, d: seq<nat>, a: seq<nat>,
      k: nat)
    requires |a| == |d| == |order| && k <= |d|
  {
    && |loads| == |shards|
    && (forall s :: 0 <= s < |loads| ==> loads[s] == Load(d[..k], a[..k], s))
    && (forall s :: 0 <= s < |shards| ==> shards[s] == ShardOf(order[..k], a[..k], s))
  }

  lemma LightestPlaced(loads: seq<nat>, shards: seq<seq<Target>>, order: seq<Target>, d: seq<nat>, m: nat, k: nat,
      s: nat)
    requires m > 0 && |d| == |order| && k < |d| && |loads| == m && s < m
    requires Placed(loads, shards, order, d, Assignment(d, m), k)
    requires forall t :: 0 <= t < m ==> loads[s] <= loads[t]
    requires forall t :: 0 <= t < s ==> loads[t] > loads[s]
    ensures Assignment(d, m)[k] == s
  {
    var a := Assignment(d, m);
    forall t | 0 <= t < m ensures Load(d[..k], a[..k], s) <= Load(d[..k], a[..k], t) {
      assert loads[s] <= loads[t];
    }
    forall t | 0 <= t < s ensures Load(d[..k], a[..k], t) > Load(d[..k], a[..k], s) {
      assert loads[t] > loads[s];
    }
    NextShard(d, m, k, s);
  }

  lemma PlaceOne(loads: seq<nat>, shards: seq<seq<Target>>, order: seq<Target>, d: seq<nat>, a: seq<nat>, k: nat)
    requires |a| == |d| == |order| && k < |d| && a[k] < |loads| && Placed(loads, shards, order, d, a, k)
    ensures Placed(loads[a[k] := loads[a[k]] + d[k]], shards[a[k] := shards[a[k]] + [order[k]]], order, d, a, k + 1)
  {
    assert d[..k + 1][..k] == d[..k] && a[..k + 1][..k] == a[..k] && order[..k + 1][..k] == order[..k];
    forall s | 0 <= s < |shards|
      ensures ShardOf(order[..k + 1], a[..k + 1], s) ==
              ShardOf(order[..k], a[..k], s) + if a[k] == s then [order[k]] else []
    {
    }
  }

  /** One target, put on the first of the lightest shards. */
  method PlaceNext(loads: array<nat>, shards: array<seq<Target>>, order: seq<Target>, duration: nat, k: nat,
      ghost d: seq<nat>)
    requires 0 < loads.Length == shards.Length && |d| == |order| && k < |d| && duration == d[k]
    requires Placed(loads[..], shards[..], order, d, Assignment(d, loads.Length), k)
    modifies loads, shards
    ensures Placed(loads[..], shards[..], order, d, Assignment(d, loads.Length), k + 1)
  {
    ghost var loadsBefore, shardsBefore := loads[..], shards[..];
    var lightest := LightestOf(loads);
    LightestPlaced(loads[..], shards[..], order, d, loads.Length, k, lightest);
    PlaceOne(loads[..], shards[..], order, d, Assignment(d, loads.Length), k);
    loads[lightest] := loads[lightest] + duration;
    shards[lightest] := shards[lightest] + [order[k]];
    assert loads[..] == loadsBefore[lightest := loadsBefore[lightest] + duration];
    assert shards[..] == shardsBefore[lightest := shardsBefore[lightest] + [order[k]]];
  }

  method Place(seconds: Target -> nat, order: seq<Target>, count: nat) returns (shards: array<seq<Target>>)
    requires count > 0
    ensures fresh(shards) && shards.Length == count
    ensures var a := Assignment(Durations(seconds, order), count);
            forall s :: 0 <= s < count ==> shards[s] == ShardOf(order, a, s)
  {
    ghost var d := Durations(seconds, order);
    ghost var a := Assignment(d, count);
    var loads := new nat[count](i => 0);
    shards := new seq<Target>[count](i => []);
    for k := 0 to |order|
      invariant Placed(loads[..], shards[..], order, d, a, k)
    {
      PlaceNext(loads, shards, order, seconds(order[k]), k, d);
    }
    assert order[..|order|] == order && a[..|order|] == a && d[..|order|] == d;
    forall s | 0 <= s < count ensures shards[s] == ShardOf(order, a, s) {
      assert shards[..][s] == shards[s];
    }
  }

  /** The targets one shard runs, in the order it runs them. */
  method ShardTargets(seconds: Target -> nat, targets: seq<Target>, index: int, count: int) returns (r: Outcome)
    ensures r.BadIndex? <==> !(count >= 1 && 0 <= index < count)
    ensures count >= 1 && 0 <= index < count ==>
              var mine := Schedule(seconds, targets, count, index);
              if mine == [] then r == NoTargetsLeft
              else r.Commands? && Ordered(r.targets) && multiset(r.targets) == multiset(mine)
  {
    if count < 1 || index < 0 || index >= count {
      return BadIndex;
    }
    var shards := Place(seconds, LongestFirst(seconds, targets), count);
    if shards[index] == [] {
      return NoTargetsLeft;
    }
    SortedTargets(shards[index]);
    return Commands(LongestFirst(t => 0, shards[index]));
  }
}
