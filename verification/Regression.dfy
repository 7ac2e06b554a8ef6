/** The load lanes' regression rule for one number of one series: every run is
    judged against the runs before it that were not flagged, and a level that
    lasted a whole window is accepted. */
module Regression {
  import opened Basics

  datatype Direction = Higher | Lower

  datatype Metric = Metric(worse: Direction, minRelativeChange: real, minAbsoluteChange: real)

  datatype Config = Config(window: nat, minBaseline: nat, k: real)

  /** What loading a configuration has checked. */
  predicate Loaded(config: Config, metric: Metric) {
    && 1 <= config.minBaseline <= config.window && config.k > 0.0
    && metric.minRelativeChange >= 0.0 && metric.minAbsoluteChange >= 0.0
  }

  /** One run: its value, and the measured spread that judges it, if any. */
  datatype Run = Run(id: nat, value: real, spread: Option<real>)

  // ----- The threshold

  function Abs(x: real): real { if x < 0.0 then -x else x }

  function Max(x: real, y: real): real { if x < y then y else x }

  function InsertReal(x: real, sorted: seq<real>): seq<real> {
    if sorted == [] then [x]
    else if x <= sorted[0] then [x] + sorted
    else [sorted[0]] + InsertReal(x, sorted[1..])
  }

  function SortReals(values: seq<real>): (sorted: seq<real>)
    ensures |sorted| == |values|
    ensures forall x :: x in sorted ==> x in values
  {
    if values == [] then [] else
    InsertedReal(values[0], SortReals(values[1..]));
    InsertReal(values[0], SortReals(values[1..]))
  }

  lemma InsertedReal(x: real, sorted: seq<real>)
    ensures |InsertReal(x, sorted)| == |sorted| + 1
    ensures forall y :: y in InsertReal(x, sorted) ==> y == x || y in sorted
  {
  }

  ghost predicate Ascending(values: seq<real>) {
    forall i, j :: 0 <= i < j < |values| ==> values[i] <= values[j]
  }

  lemma {:induction false} InsertAscends(x: real, sorted: seq<real>)
    requires Ascending(sorted)
    ensures Ascending(InsertReal(x, sorted))
    decreases |sorted|
  {
    if sorted != [] && x > sorted[0] {
      var rest := InsertReal(x, sorted[1..]);
      InsertAscends(x, sorted[1..]);
      InsertedReal(x, sorted[1..]);
      forall i | 0 <= i < |rest| ensures sorted[0] <= rest[i] {
        assert rest[i] in rest;
      }
    }
  }

  lemma Consed(x: real, rest: seq<real>)
    ensures multiset([x] + rest) == multiset{x} + multiset(rest)
  {
  }

  lemma {:induction false} InsertKeeps(x: real, sorted: seq<real>)
    ensures multiset(InsertReal(x, sorted)) == multiset{x} + multiset(sorted)
    decreases |sorted|
  {
    if sorted != [] && x > sorted[0] {
      InsertKeeps(x, sorted[1..]);
      Consed(sorted[0], InsertReal(x, sorted[1..]));
      Consed(sorted[0], sorted[1..]);
      assert sorted == [sorted[0]] + sorted[1..];
    } else {
      Consed(x, sorted);
      assert InsertReal(x, sorted) == [x] + sorted;
    }
  }

  /** What the median is taken of: the same values, ascending. */
  lemma {:induction false} SortedReals(values: seq<real>)
    ensures Ascending(SortReals(values)) && multiset(SortReals(values)) == multiset(values)
    decreases |values|
  {
    if values != [] {
      SortedReals(values[1..]);
      InsertAscends(values[0], SortReals(values[1..]));
      InsertKeeps(values[0], SortReals(values[1..]));
      Consed(values[0], values[1..]);
      assert values == [values[0]] + values[1..];
    }
  }

  /** A baseline is never empty; the median of nothing is 0 here. */
  function Median(values: seq<real>): real {
    var sorted := SortReals(values);
    var n := |sorted|;
    if n == 0 then 0.0 else if n % 2 == 1 then sorted[n / 2] else (sorted[n / 2 - 1] + sorted[n / 2]) / 2.0
  }

  datatype Threshold = Threshold(median: real, spread: real, allowed: real, n: nat)

  function Deviations(values: seq<real>, median: real): (d: seq<real>)
    ensures |d| == |values|
  {
    seq(|values|, i requires 0 <= i < |values| => Abs(values[i] - median))
  }

  function ThresholdOf(values: seq<real>, metric: Metric, config: Config, measured: Option<real>): Threshold {
    var median := Median(values);
    var spread := if measured.Some? then measured.value * Abs(median) else 1.4826 * Median(Deviations(values, median));
    var allowed := Max(Max(config.k * spread, metric.minRelativeChange * Abs(median)), metric.minAbsoluteChange);
    Threshold(median, spread, allowed, |values|)
  }

  predicate IsWorse(limit: Threshold, value: real, worse: Direction) {
    if worse.Higher? then value > limit.median + limit.allowed else value < limit.median - limit.allowed
  }

  lemma ConstantMedian(values: seq<real>, v: real)
    requires values != [] && forall i :: 0 <= i < |values| ==> values[i] == v
    ensures Median(values) == v
  {
    var sorted := SortReals(values);
    forall i | 0 <= i < |sorted| ensures sorted[i] == v {
      assert sorted[i] in values;
    }
  }

  /** A run at a level the whole baseline is at is within it. */
  lemma ConstantIsWithin(values: seq<real>, v: real, metric: Metric, config: Config, measured: Option<real>)
    requires values != [] && (forall i :: 0 <= i < |values| ==> values[i] == v) && metric.minAbsoluteChange >= 0.0
    ensures !IsWorse(ThresholdOf(values, metric, config, measured), v, metric.worse)
  {
    ConstantMedian(values, v);
  }

  /** The rule a series is replayed under: how a baseline bounds a run, and
      when a value is beyond the bound. */
  datatype Rule = Rule(
    window: nat,
    minBaseline: nat,
    limit: (seq<real>, Run) -> Threshold,
    beyond: (Threshold, real) -> bool)

  function RuleOf(metric: Metric, config: Config): Rule {
    Rule(config.window, config.minBaseline,
         (base: seq<real>, run: Run) => ThresholdOf(base, metric, config, run.spread),
         (limit: Threshold, value: real) => IsWorse(limit, value, metric.worse))
  }

  predicate Constant(values: seq<real>, v: real) {
    forall i :: 0 <= i < |values| ==> values[i] == v
  }

  /** What the replay asks of a rule: a run at its whole baseline's level is
      not beyond it. */
  ghost predicate Sensible(rule: Rule) {
    && 1 <= rule.minBaseline <= rule.window
    && forall base: seq<real>, run: Run :: base != [] && Constant(base, run.value) ==>
         !rule.beyond(rule.limit(base, run), run.value)
  }

  lemma RuleIsSensible(metric: Metric, config: Config)
    requires Loaded(config, metric)
    ensures Sensible(RuleOf(metric, config))
  {
    forall base, run: Run | base != [] && Constant(base, run.value)
      ensures !IsWorse(ThresholdOf(base, metric, config, run.spread), run.value, metric.worse)
    {
      ConstantIsWithin(base, run.value, metric, config, run.spread);
    }
  }

  // ----- The replay

  datatype Verdict = Unjudged | Within | Flagged | Accepted

  datatype State = State(flagged: seq<bool>, verdicts: seq<Verdict>, limit: Option<Threshold>)

  /** How many runs in a row, back from `end` but not past `from`, are flagged. */
  function Streak(flagged: seq<bool>, from: nat, end: nat): (n: nat)
    requires from <= end <= |flagged|
    ensures n <= end - from
    decreases end
  {
    if from == end || !flagged[end - 1] then 0 else 1 + Streak(flagged, from, end - 1)
  }

  /** How many of the runs from `from` up to `end` are not flagged. */
  function Count(flagged: seq<bool>, from: nat, end: nat): (n: nat)
    requires from <= end <= |flagged|
    ensures n <= end - from
    decreases end
  {
    if from == end then 0 else Count(flagged, from, end - 1) + if flagged[end - 1] then 0 else 1
  }

  /** The values of the first `n` runs that are not flagged. */
  function Unflagged(runs: seq<Run>, flagged: seq<bool>, n: nat): (values: seq<real>)
    requires n <= |flagged| && n <= |runs|
    ensures |values| == Count(flagged, 0, n)
    decreases n
  {
    if n == 0 then []
    else Unflagged(runs, flagged, n - 1) + if flagged[n - 1] then [] else [runs[n - 1].value]
  }

  function LastOf(values: seq<real>, window: nat): seq<real> {
    if |values| <= window then values else values[|values| - window..]
  }

  /** `xs` with everything from `from` on replaced by `x`. */
  function Fill<T>(xs: seq<T>, from: nat, x: T): (ys: seq<T>)
    ensures |ys| == |xs|
    ensures forall i :: 0 <= i < |xs| ==> ys[i] == if i < from then xs[i] else x
  {
    seq(|xs|, i requires 0 <= i < |xs| => if i < from then xs[i] else x)
  }

  /** A streak that lasted a window is the new level: it is flagged no more. */
  function AcceptFlags(flagged: seq<bool>, window: nat): (after: seq<bool>)
    ensures |after| == |flagged|
  {
    var streak := Streak(flagged, 0, |flagged|);
    if streak >= window then Fill(flagged, |flagged| - streak, false) else flagged
  }

  function AcceptVerdicts(flagged: seq<bool>, verdicts: seq<Verdict>, window: nat): (after: seq<Verdict>)
    requires |verdicts| == |flagged|
    ensures |after| == |verdicts|
  {
    var streak := Streak(flagged, 0, |flagged|);
    if streak >= window then Fill(verdicts, |flagged| - streak, Accepted) else verdicts
  }

  /** The bound the next run is judged by, if enough runs came before it. */
  function Limit(runs: seq<Run>, flagged: seq<bool>, rule: Rule): Option<Threshold>
    requires |flagged| < |runs|
  {
    var base := LastOf(Unflagged(runs, flagged, |flagged|), rule.window);
    if |base| < rule.minBaseline then None else Some(rule.limit(base, runs[|flagged|]))
  }

  function Flag(runs: seq<Run>, flagged: seq<bool>, rule: Rule): bool
    requires |flagged| < |runs|
  {
    var limit := Limit(runs, flagged, rule);
    limit.Some? && rule.beyond(limit.value, runs[|flagged|].value)
  }

  /** The flags once the first `n` runs are judged. */
  function Flags(runs: seq<Run>, n: nat, rule: Rule): (flagged: seq<bool>)
    requires n <= |runs|
    ensures |flagged| == n
    decreases n
  {
    if n == 0 then [] else
    var before := AcceptFlags(Flags(runs, n - 1, rule), rule.window);
    before + [Flag(runs, before, rule)]
  }

  /** Everything the replay keeps, once the first `n` runs are judged. */
  function Replay(runs: seq<Run>, n: nat, rule: Rule): (st: State)
    requires n <= |runs|
    ensures |st.verdicts| == n && st.flagged == Flags(runs, n, rule)
    decreases n
  {
    if n == 0 then State([], [], None) else
    var st := Replay(runs, n - 1, rule);
    var before := AcceptFlags(st.flagged, rule.window);
    var limit := Limit(runs, before, rule);
    State(before + [Flag(runs, before, rule)],
          AcceptVerdicts(st.flagged, st.verdicts, rule.window) +
            [if limit.None? then Unjudged else if Flag(runs, before, rule) then Flagged else Within],
          limit)
  }

  datatype Basis = OwnBaseline | ThisLimitUnjudged | ThisLimitAccepted

  datatype Result =
    | UnknownResult(usable: nat)
    | WithinResult(limit: Threshold, provisional: bool)
    | Regressed(limit: Threshold, good: Option<(Run, Basis)>, firstBad: Run, streak: nat, provisional: bool)

  /** Some judgement of the first `n` runs used the provisional spread. */
  predicate Provisional(runs: seq<Run>, n: nat, rule: Rule)
    requires n <= |runs|
  {
    exists i :: rule.minBaseline <= i < n && runs[i].spread.None?
  }

  function LastGood(runs: seq<Run>, st: State, streak: nat, limit: Threshold, rule: Rule): Option<(Run, Basis)>
    requires |st.verdicts| <= |runs| && streak <= |st.verdicts|
  {
    var n := |st.verdicts|;
    if streak == n then None else
    var c := n - 1 - streak;
    if st.verdicts[c].Within? then Some((runs[c], OwnBaseline))
    else if rule.beyond(limit, runs[c].value) then None
    else Some((runs[c], if st.verdicts[c].Unjudged? then ThisLimitUnjudged else ThisLimitAccepted))
  }

  /** The last of the first `n` runs against the runs before it. */
  function Evaluate(runs: seq<Run>, n: nat, rule: Rule): Result
    requires 0 < n <= |runs|
  {
    var st := Replay(runs, n, rule);
    match st.limit
    case None => UnknownResult(Count(st.flagged, 0, n - 1))
    case Some(limit) =>
      var streak := Streak(st.flagged, 0, n);
      if !st.flagged[n - 1] then WithinResult(limit, Provisional(runs, n, rule))
      else Regressed(limit, LastGood(runs, st, streak, limit, rule), runs[n - streak], streak,
                     Provisional(runs, n, rule))
  }

  // ----- Streaks and counts

  lemma {:induction false} SameStreak(a: seq<bool>, b: seq<bool>, from: nat, end: nat)
    requires from <= end <= |a| && end <= |b| && forall i :: from <= i < end ==> a[i] == b[i]
    ensures Streak(a, from, end) == Streak(b, from, end) && Count(a, from, end) == Count(b, from, end)
    decreases end
  {
    if from < end {
      SameStreak(a, b, from, end - 1);
    }
  }

  /** One run more. */
  lemma OneMore(flagged: seq<bool>, flag: bool, from: nat)
    requires from <= |flagged|
    ensures var after := flagged + [flag];
            && Count(after, from, |after|) == Count(flagged, from, |flagged|) + (if flag then 0 else 1)
            && Streak(after, from, |after|) == if flag then Streak(flagged, from, |flagged|) + 1 else 0
  {
    SameStreak(flagged + [flag], flagged, from, |flagged|);
  }

  /** A streak counted from later on is no more than what is left of it. */
  lemma {:induction false} LaterStreak(flagged: seq<bool>, from: nat, end: nat)
    requires from <= end <= |flagged|
    ensures Streak(flagged, from, end) ==
            if Streak(flagged, 0, end) <= end - from then Streak(flagged, 0, end) else end - from
    decreases end
  {
    if from < end && flagged[end - 1] {
      LaterStreak(flagged, from, end - 1);
    }
  }

  lemma {:induction false} FilledCount(flagged: seq<bool>, from: nat, end: nat)
    requires from <= end <= |flagged|
    ensures var start := end - Streak(flagged, 0, end);
            Count(Fill(flagged, start, false), from, end) == Count(flagged, from, end) + Streak(flagged, from, end)
    decreases end
  {
    if from < end {
      if flagged[end - 1] {
        FilledCount(flagged, from, end - 1);
      } else {
        SameStreak(Fill(flagged, end, false), flagged, from, end);
      }
    }
  }

  lemma {:induction false} NoneFlagged(flagged: seq<bool>, from: nat, end: nat)
    requires from <= end <= |flagged| && forall i :: from <= i < end ==> !flagged[i]
    ensures Count(flagged, from, end) == end - from
    decreases end
  {
    if from < end {
      NoneFlagged(flagged, from, end - 1);
    }
  }

  lemma {:induction false} CountSplits(flagged: seq<bool>, mid: nat, end: nat)
    requires mid <= end <= |flagged|
    ensures Count(flagged, 0, end) == Count(flagged, 0, mid) + Count(flagged, mid, end)
    decreases end
  {
    if mid < end {
      CountSplits(flagged, mid, end - 1);
    }
  }

  /** After acceptance a streak is always shorter than the window. */
  lemma AcceptedStreak(flagged: seq<bool>, window: nat)
    requires window > 0
    ensures Streak(AcceptFlags(flagged, window), 0, |flagged|) < window
  {
  }

  // ----- Which runs are judged

  /** None of the first `k` runs is flagged. */
  predicate EarlyClear(flagged: seq<bool>, k: nat) {
    forall i :: 0 <= i < |flagged| && i < k ==> !flagged[i]
  }

  /** The runs before the baseline is full are never flagged. */
  lemma {:induction false} EarlyUnflagged(runs: seq<Run>, n: nat, rule: Rule)
    requires n <= |runs|
    ensures EarlyClear(Flags(runs, n, rule), rule.minBaseline)
    decreases n
  {
    if n > 0 {
      EarlyUnflagged(runs, n - 1, rule);
      var before := AcceptFlags(Flags(runs, n - 1, rule), rule.window);
      assert EarlyClear(before, rule.minBaseline);
      assert |Unflagged(runs, before, n - 1)| <= n - 1;
    }
  }

  /** A run is judged exactly when `minBaseline` runs came before it. */
  lemma JudgedExactly(runs: seq<Run>, n: nat, rule: Rule)
    requires 0 < n <= |runs| && 1 <= rule.minBaseline <= rule.window
    ensures Replay(runs, n, rule).verdicts[n - 1].Unjudged? <==> n - 1 < rule.minBaseline
    ensures Evaluate(runs, n, rule).UnknownResult? <==> n - 1 < rule.minBaseline
  {
    var before := AcceptFlags(Flags(runs, n - 1, rule), rule.window);
    EarlyUnflagged(runs, n - 1, rule);
    if n - 1 >= rule.minBaseline {
      assert EarlyClear(before, rule.minBaseline);
      NoneFlagged(before, 0, rule.minBaseline);
      CountSplits(before, rule.minBaseline, n - 1);
    }
  }

  lemma StreakBounded(runs: seq<Run>, n: nat, rule: Rule)
    requires n <= |runs| && rule.window > 0
    ensures Streak(Flags(runs, n, rule), 0, n) <= rule.window
  {
    if n > 0 {
      var before := AcceptFlags(Flags(runs, n - 1, rule), rule.window);
      AcceptedStreak(Flags(runs, n - 1, rule), rule.window);
      OneMore(before, Flag(runs, before, rule), 0);
    }
  }

  /** No reported streak is longer than a window. */
  lemma ReportedStreak(runs: seq<Run>, n: nat, rule: Rule)
    requires 0 < n <= |runs| && rule.window > 0 && Evaluate(runs, n, rule).Regressed?
    ensures 1 <= Evaluate(runs, n, rule).streak <= rule.window
  {
    StreakBounded(runs, n, rule);
  }

  lemma StreakGrows(runs: seq<Run>, n: nat, rule: Rule)
    requires n < |runs| && Streak(Flags(runs, n, rule), 0, n) < rule.window && Flags(runs, n + 1, rule)[n]
    ensures Streak(Flags(runs, n + 1, rule), 0, n + 1) == Streak(Flags(runs, n, rule), 0, n) + 1
  {
    OneMore(Flags(runs, n, rule), true, 0);
  }

  /** Night after night, a regression shorter than a window is reported with
      the same first bad run and a streak one longer. */
  lemma ReportedRangeStays(runs: seq<Run>, n: nat, rule: Rule)
    requires 0 < n < |runs| && Evaluate(runs, n, rule).Regressed? && Evaluate(runs, n, rule).streak < rule.window
    requires Evaluate(runs, n + 1, rule).Regressed?
    ensures Evaluate(runs, n + 1, rule).streak == Evaluate(runs, n, rule).streak + 1
    ensures Evaluate(runs, n + 1, rule).firstBad == Evaluate(runs, n, rule).firstBad
  {
    StreakGrows(runs, n, rule);
  }

  // ----- A new level

  lemma {:induction false} UnflaggedAt(runs: seq<Run>, flagged: seq<bool>, n: nat, from: nat, v: real, k: nat)
    requires from <= n <= |flagged| && n <= |runs| && forall i :: from <= i < n ==> runs[i].value == v
    requires Count(flagged, 0, from) <= k < |Unflagged(runs, flagged, n)|
    ensures Unflagged(runs, flagged, n)[k] == v
    decreases n
  {
    if from < n && k < |Unflagged(runs, flagged, n - 1)| {
      UnflaggedAt(runs, flagged, n - 1, from, v, k);
    }
  }

  /** With a window of unflagged runs at `v` since `from`, a run at `v` is
      not flagged. */
  lemma SettledIsWithin(runs: seq<Run>, flagged: seq<bool>, from: nat, v: real, rule: Rule)
    requires from <= |flagged| < |runs| && Sensible(rule)
    requires forall i :: from <= i <= |flagged| ==> runs[i].value == v
    requires Count(flagged, from, |flagged|) >= rule.window
    ensures Limit(runs, flagged, rule).Some? && !Flag(runs, flagged, rule)
  {
    var n := |flagged|;
    var all := Unflagged(runs, flagged, n);
    var base := LastOf(all, rule.window);
    CountSplits(flagged, from, n);
    forall k | 0 <= k < |base| ensures base[k] == v {
      UnflaggedAt(runs, flagged, n, from, v, |all| - rule.window + k);
    }
    assert Constant(base, runs[n].value);
  }

  /** A window of flagged runs at one value is accepted: the next run there is
      within. */
  lemma AcceptedLevel(runs: seq<Run>, n: nat, v: real, rule: Rule)
    requires Sensible(rule) && rule.window <= n < |runs|
    requires Streak(Flags(runs, n, rule), 0, n) == rule.window
    requires forall i :: n - rule.window <= i <= n ==> runs[i].value == v
    ensures Evaluate(runs, n + 1, rule).WithinResult?
  {
    var before := AcceptFlags(Flags(runs, n, rule), rule.window);
    NoneFlagged(before, n - rule.window, n);
    SettledIsWithin(runs, before, n - rule.window, v, rule);
  }

  // ----- How long a shift can be reported

  /** How many of the runs from `from` up to `n` were judged regressed. */
  function Alarms(runs: seq<Run>, from: nat, n: nat, rule: Rule): nat
    requires from <= n <= |runs|
    decreases n
  {
    if n == from then 0 else Alarms(runs, from, n - 1, rule) + if Flags(runs, n, rule)[n - 1] then 1 else 0
  }

  /** `count` windows. */
  function Allowance(window: nat, count: nat): nat {
    if count == 0 then 0 else Allowance(window, count - 1) + window
  }

  lemma {:induction false} AllowanceIs(window: nat, count: nat)
    ensures Allowance(window, count) == window * count
    decreases count
  {
    if count > 0 {
      AllowanceIs(window, count - 1);
    }
  }

  lemma {:induction false} AllowanceGrows(window: nat, count: nat, more: nat)
    requires window > 0
    ensures Allowance(window, count + more) >= Allowance(window, count) + more
    decreases more
  {
    if more > 0 {
      AllowanceGrows(window, count, more - 1);
    }
  }

  /** What was reported is paid for by runs that count as unflagged, a window
      for each, but for the streak still open. */
  predicate Covered(alarms: nat, count: nat, streak: nat, window: nat) {
    alarms <= Allowance(window, count) + streak && alarms <= Allowance(window, window)
  }

  lemma CoveredByAcceptance(alarms: nat, count: nat, streak: nat, window: nat)
    requires Covered(alarms, count, streak, window) && window > 0
    ensures Covered(alarms, count + streak, 0, window)
  {
    AllowanceGrows(window, count, streak);
  }

  lemma CoveredByWithin(alarms: nat, count: nat, streak: nat, window: nat)
    requires Covered(alarms, count, streak, window) && streak < window
    ensures Covered(alarms, count + 1, 0, window)
  {
    assert Allowance(window, count + 1) == Allowance(window, count) + window;
  }

  lemma CoveredByStreak(alarms: nat, count: nat, streak: nat, window: nat)
    requires Covered(alarms, count, streak, window) && streak < window && count < window
    ensures Covered(alarms + 1, count, streak + 1, window)
  {
    AllowanceGrows(window, count + 1, window - count - 1);
  }

  ghost predicate Paid(flagged: seq<bool>, from: nat, alarms: nat, window: nat)
    requires from <= |flagged|
  {
    Covered(alarms, Count(flagged, from, |flagged|), Streak(flagged, from, |flagged|), window)
  }

  lemma AcceptPays(flagged: seq<bool>, from: nat, window: nat, alarms: nat)
    requires from <= |flagged| && window > 0 && Paid(flagged, from, alarms, window)
    ensures Paid(AcceptFlags(flagged, window), from, alarms, window)
  {
    var n := |flagged|;
    if Streak(flagged, 0, n) >= window {
      FilledCount(flagged, from, n);
      CoveredByAcceptance(alarms, Count(flagged, from, n), Streak(flagged, from, n), window);
      var after := Fill(flagged, n - Streak(flagged, 0, n), false);
      assert Streak(after, from, n) == 0;
    }
  }

  lemma NextPaid(flagged: seq<bool>, flag: bool, from: nat, alarms: nat, window: nat)
    requires from <= |flagged| && Streak(flagged, 0, |flagged|) < window && Paid(flagged, from, alarms, window)
    requires Count(flagged, from, |flagged|) >= window ==> !flag
    ensures Paid(flagged + [flag], from, alarms + if flag then 1 else 0, window)
  {
    LaterStreak(flagged, from, |flagged|);
    OneMore(flagged, flag, from);
    if flag {
      CoveredByStreak(alarms, Count(flagged, from, |flagged|), Streak(flagged, from, |flagged|), window);
    } else {
      CoveredByWithin(alarms, Count(flagged, from, |flagged|), Streak(flagged, from, |flagged|), window);
    }
  }

  lemma {:induction false} AlarmsPaid(runs: seq<Run>, from: nat, n: nat, v: real, rule: Rule)
    requires from <= n <= |runs| && Sensible(rule)
    requires forall i :: from <= i < |runs| ==> runs[i].value == v
    ensures Paid(Flags(runs, n, rule), from, Alarms(runs, from, n, rule), rule.window)
    decreases n
  {
    if from < n {
      var alarms := Alarms(runs, from, n - 1, rule);
      AlarmsPaid(runs, from, n - 1, v, rule);
      var flagged := Flags(runs, n - 1, rule);
      AcceptedStreak(flagged, rule.window);
      AcceptPays(flagged, from, rule.window, alarms);
      var before := AcceptFlags(flagged, rule.window);
      if Count(before, from, n - 1) >= rule.window {
        SettledIsWithin(runs, before, from, v, rule);
      }
      NextPaid(before, Flag(runs, before, rule), from, alarms, rule.window);
    }
  }

  /** After a shift to a constant value, at most window squared later runs are
      reported as regressed, however long the series goes on. */
  lemma ShiftIsAccepted(runs: seq<Run>, from: nat, v: real, rule: Rule)
    requires from <= |runs| && Sensible(rule)
    requires forall i :: from <= i < |runs| ==> runs[i].value == v
    ensures Alarms(runs, from, |runs|, rule) <= rule.window * rule.window
  {
    AlarmsPaid(runs, from, |runs|, v, rule);
    AllowanceIs(rule.window, rule.window);
  }

  // ----- The replay as the script runs it

  lemma {:induction false} StreakUnique(flagged: seq<bool>, end: nat, n: nat)
    requires n <= end <= |flagged| && (forall i :: end - n <= i < end ==> flagged[i])
    requires n < end ==> !flagged[end - n - 1]
    ensures Streak(flagged, 0, end) == n
    decreases n
  {
    if n > 0 {
      StreakUnique(flagged, end - 1, n - 1);
    }
  }

  method StreakBefore(flagged: array<bool>, index: nat) returns (streak: nat)
    requires index <= flagged.Length
    ensures streak == Streak(flagged[..index], 0, index)
  {
    streak := 0;
    while streak < index && flagged[index - 1 - streak]
      invariant streak <= index
      invariant forall i :: index - streak <= i < index ==> flagged[i]
    {
      streak := streak + 1;
    }
    StreakUnique(flagged[..index], index, streak);
  }

  /** Takes a streak that lasted a window off the flags, in place. */
  method AcceptBefore(flagged: array<bool>, verdicts: array<Verdict>, index: nat, window: nat)
    requires index <= flagged.Length == verdicts.Length
    modifies flagged, verdicts
    ensures flagged[..index] == AcceptFlags(old(flagged[..index]), window)
    ensures verdicts[..index] == AcceptVerdicts(old(flagged[..index]), old(verdicts[..index]), window)
    ensures forall k :: index <= k < flagged.Length ==> flagged[k] == old(flagged[k]) && verdicts[k] == old(verdicts[k])
  {
    var streak := StreakBefore(flagged, index);
    if streak >= window {
      for i := index - streak to index
        invariant forall k :: 0 <= k < flagged.Length ==>
                    flagged[k] == if index - streak <= k < i then false else old(flagged[k])
        invariant forall k :: 0 <= k < verdicts.Length ==>
                    verdicts[k] == if index - streak <= k < i then Accepted else old(verdicts[k])
      {
        flagged[i] := false;
        verdicts[i] := Accepted;
      }
    }
  }

  method BaselineBefore(runs: seq<Run>, flagged: array<bool>, index: nat, window: nat) returns (base: seq<real>)
    requires index <= |runs| == flagged.Length
    ensures base == LastOf(Unflagged(runs, flagged[..index], index), window)
  {
    base := [];
    for j := 0 to index
      invariant base == Unflagged(runs, flagged[..index], j)
    {
      if !flagged[j] {
        base := base + [runs[j].value];
      }
    }
    base := if |base| <= window then base else base[|base| - window..];
  }

  function VerdictOf(limit: Option<Threshold>, flag: bool): Verdict {
    if limit.None? then Unjudged else if flag then Flagged else Within
  }

  /** Judges run `index` by the unflagged runs before it, in place. */
  method JudgeRun(runs: seq<Run>, rule: Rule, flagged: array<bool>, verdicts: array<Verdict>, index: nat)
    returns (limit: Option<Threshold>)
    requires index < |runs| == flagged.Length == verdicts.Length
    requires !flagged[index] && verdicts[index] == Unjudged
    modifies flagged, verdicts
    ensures flagged[..index] == old(flagged[..index]) && verdicts[..index] == old(verdicts[..index])
    ensures limit == Limit(runs, flagged[..index], rule)
    ensures flagged[index] == Flag(runs, flagged[..index], rule) && verdicts[index] == VerdictOf(limit, flagged[index])
    ensures forall k :: index < k < flagged.Length ==> flagged[k] == old(flagged[k]) && verdicts[k] == old(verdicts[k])
  {
    var base := BaselineBefore(runs, flagged, index, rule.window);
    if |base| < rule.minBaseline {
      return None;
    }
    limit := Some(rule.limit(base, runs[index]));
    ghost var before := flagged[..index];
    flagged[index] := rule.beyond(limit.value, runs[index].value);
    verdicts[index] := if flagged[index] then Flagged else Within;
    assert flagged[..index] == before;
  }

  lemma ReplayStep(runs: seq<Run>, n: nat, rule: Rule)
    requires n < |runs|
    ensures var st, next := Replay(runs, n, rule), Replay(runs, n + 1, rule);
            var before := AcceptFlags(st.flagged, rule.window);
            && next.limit == Limit(runs, before, rule)
            && next.flagged == before + [Flag(runs, before, rule)]
            && next.verdicts == AcceptVerdicts(st.flagged, st.verdicts, rule.window) +
                                [VerdictOf(next.limit, Flag(runs, before, rule))]
  {
  }

  /** The two lists hold the replay of the first `n` runs. */
  ghost predicate Holds(runs: seq<Run>, rule: Rule, n: nat, flagged: array<bool>, verdicts: array<Verdict>)
    reads flagged, verdicts
  {
    n <= |runs| == flagged.Length == verdicts.Length &&
    flagged[..n] == Replay(runs, n, rule).flagged && verdicts[..n] == Replay(runs, n, rule).verdicts &&
    (forall i :: n <= i < |runs| ==> !flagged[i] && verdicts[i] == Unjudged)
  }

  method JudgeNext(runs: seq<Run>, rule: Rule, flagged: array<bool>, verdicts: array<Verdict>, index: nat)
    returns (limit: Option<Threshold>)
    requires index < |runs| && Holds(runs, rule, index, flagged, verdicts)
    modifies flagged, verdicts
    ensures Holds(runs, rule, index + 1, flagged, verdicts)
    ensures limit == Replay(runs, index + 1, rule).limit
  {
    ReplayStep(runs, index, rule);
    AcceptBefore(flagged, verdicts, index, rule.window);
    limit := JudgeRun(runs, rule, flagged, verdicts, index);
    assert flagged[..index + 1] == flagged[..index] + [flagged[index]];
    assert verdicts[..index + 1] == verdicts[..index] + [verdicts[index]];
  }

  lemma ProvisionalStep(runs: seq<Run>, n: nat, rule: Rule)
    requires n < |runs| && 1 <= rule.minBaseline <= rule.window
    ensures Provisional(runs, n + 1, rule) <==>
            Provisional(runs, n, rule) || (Replay(runs, n + 1, rule).limit.Some? && runs[n].spread.None?)
  {
    JudgedExactly(runs, n + 1, rule);
  }

  method CountUsable(flagged: array<bool>, n: nat) returns (usable: nat)
    requires n <= flagged.Length
    ensures usable == Count(flagged[..], 0, n)
  {
    usable := 0;
    for i := 0 to n
      invariant usable == Count(flagged[..], 0, i)
    {
      if !flagged[i] {
        usable := usable + 1;
      }
    }
  }

  /** Judges every run of the series, oldest first. */
  method JudgeAll(runs: seq<Run>, rule: Rule, flagged: array<bool>, verdicts: array<Verdict>)
    returns (limit: Option<Threshold>, provisional: bool)
    requires 1 <= rule.minBaseline <= rule.window && Holds(runs, rule, 0, flagged, verdicts)
    modifies flagged, verdicts
    ensures Holds(runs, rule, |runs|, flagged, verdicts)
    ensures limit == Replay(runs, |runs|, rule).limit && provisional == Provisional(runs, |runs|, rule)
  {
    limit, provisional := None, false;
    for index := 0 to |runs|
      invariant Holds(runs, rule, index, flagged, verdicts)
      invariant limit == Replay(runs, index, rule).limit
      invariant provisional == Provisional(runs, index, rule)
    {
      limit := JudgeNext(runs, rule, flagged, verdicts, index);
      provisional := StillProvisional(runs, rule, index, limit, provisional);
    }
  }

  method StillProvisional(runs: seq<Run>, rule: Rule, index: nat, limit: Option<Threshold>, before: bool)
    returns (provisional: bool)
    requires index < |runs| && 1 <= rule.minBaseline <= rule.window
    requires limit == Replay(runs, index + 1, rule).limit && before == Provisional(runs, index, rule)
    ensures provisional == Provisional(runs, index + 1, rule)
  {
    ProvisionalStep(runs, index, rule);
    provisional := before || (limit.Some? && runs[index].spread.None?);
  }

  /** The verdict on the newest run of a series. */
  method EvaluateNumber(runs: seq<Run>, rule: Rule) returns (r: Result)
    requires runs != [] && 1 <= rule.minBaseline <= rule.window
    ensures r == Evaluate(runs, |runs|, rule)
  {
    var flagged := new bool[|runs|](i => false);
    var verdicts := new Verdict[|runs|](i => Unjudged);
    var limit, provisional := JudgeAll(runs, rule, flagged, verdicts);
    r := Conclude(runs, rule, flagged, verdicts, limit, provisional);
  }

  method Conclude(runs: seq<Run>, rule: Rule, flagged: array<bool>, verdicts: array<Verdict>,
                  limit: Option<Threshold>, provisional: bool) returns (r: Result)
    requires runs != [] && Holds(runs, rule, |runs|, flagged, verdicts)
    requires limit == Replay(runs, |runs|, rule).limit && provisional == Provisional(runs, |runs|, rule)
    ensures r == Evaluate(runs, |runs|, rule)
  {
    var n := |runs|;
    assert flagged[..] == flagged[..n] && verdicts[..] == verdicts[..n];
    if limit.None? {
      var usable := CountUsable(flagged, n - 1);
      return UnknownResult(usable);
    }
    if !flagged[n - 1] {
      return WithinResult(limit.value, provisional);
    }
    var streak := StreakBefore(flagged, n);
    var good := LastGood(runs, State(flagged[..], verdicts[..], limit), streak, limit.value, rule);
    return Regressed(limit.value, good, runs[n - streak], streak, provisional);
  }
}
