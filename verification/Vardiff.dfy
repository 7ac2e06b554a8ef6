/** Variable difficulty: each window's retarget moves a client toward the
    difficulty its accepted shares show, in bounded steps. Decimals are reals
    here: rounding is not part of the rule. */
module Vardiff {
  import opened Basics

  datatype Config = Config(
    targetInterval: real,
    minDifficulty: real,
    maxDifficulty: real,
    maxStep: real,
    maxStepDown: real,
    alpha: real,
    tolerance: real,
    initialEnabled: bool,
    initialMaxStep: real)

  /** What a configuration is checked for when it is made. */
  predicate Valid(c: Config) {
    && c.targetInterval > 0.0
    && 0.0 < c.minDifficulty <= c.maxDifficulty
    && c.maxStep >= 1.0 && c.maxStepDown >= 1.0
    && 0.0 < c.alpha <= 1.0 && c.tolerance >= 0.0
    && c.initialMaxStep >= c.maxStep
  }

  function Clamp(value: real, lowest: real, highest: real): real {
    var raised := if lowest > value then lowest else value;
    if highest < raised then highest else raised
  }

  predicate InLane(c: Config, d: real) { c.minDifficulty <= d <= c.maxDifficulty }

  /** The difficulty at which the accepted work would have come at the target
      interval; none without work. */
  function Observed(work: real, elapsed: real, interval: real): Option<real>
    requires work >= 0.0 && elapsed > 0.0 && interval > 0.0
    ensures Observed(work, elapsed, interval).Some? ==> Observed(work, elapsed, interval).value > 0.0
  {
    if work == 0.0 then None else
    Positive(work * interval, elapsed);
    Some(work * interval / elapsed)
  }

  lemma Positive(x: real, y: real)
    requires y > 0.0 && x > 0.0
    ensures x / y > 0.0
  {
  }

  /** An observation and an estimate, weighted. */
  function Mixture(c: Config, observed: real, previous: real): real {
    observed * c.alpha + previous * (1.0 - c.alpha)
  }

  function Smooth(c: Config, observed: real, previous: Option<real>): real {
    match previous
    case None => Clamp(observed, c.minDifficulty, c.maxDifficulty)
    case Some(p) => Clamp(Mixture(c, observed, p), c.minDifficulty, c.maxDifficulty)
  }

  function Abs(x: real): real { if x < 0.0 then -x else x }

  predicate ShouldRetarget(current: real, next: real, tolerance: real)
    requires current > 0.0
  {
    next != current && Abs(next - current) / current >= tolerance
  }

  function UpStep(c: Config, initial: bool): real {
    if initial && c.initialEnabled then c.initialMaxStep else c.maxStep
  }

  /** What a window aims at: the estimate, or the work seen, or a step down. */
  function Aim(c: Config, current: real, shares: nat, elapsed: real, work: Option<real>, estimate: Option<real>): real
    requires Valid(c) && current > 0.0 && elapsed > 0.0 && (work.Some? ==> work.value >= 0.0)
  {
    if estimate.Some? then estimate.value
    else if shares == 0 then current / c.maxStepDown
    else
      var w := if work.Some? then work.value else current * shares as real;
      match Observed(w, elapsed, c.targetInterval)
      case Some(o) => o
      case None => current / c.maxStepDown
  }

  /** Scaled toward `aim`, by no more than the step factors. */
  function Scale(current: real, aim: real, down: real, up: real): real
    requires current > 0.0 && down >= 1.0
  {
    current * Clamp(aim / current, 1.0 / down, up)
  }

  /** The step itself: toward `aim`, bounded, within the lane. */
  function StepToward(c: Config, current: real, aim: real, up: real): real
    requires Valid(c) && current > 0.0
  {
    Clamp(Scale(current, aim, c.maxStepDown, up), c.minDifficulty, c.maxDifficulty)
  }

  function NextDifficulty(c: Config, difficulty: real, shares: nat, elapsed: real, work: Option<real>,
                          estimate: Option<real>, initial: bool): real
    requires Valid(c) && difficulty > 0.0 && elapsed > 0.0
    requires (work.Some? ==> work.value >= 0.0) && (estimate.Some? ==> estimate.value > 0.0)
  {
    var current := Clamp(difficulty, c.minDifficulty, c.maxDifficulty);
    StepToward(c, current, Aim(c, current, shares, elapsed, work, estimate), UpStep(c, initial))
  }

  // ----- One step

  lemma Scaled(x: real, a: real, b: real)
    requires x > 0.0
    ensures a <= b <==> x * a <= x * b
  {
    if a <= b {
      assert x * (b - a) >= 0.0;
    } else {
      assert x * (a - b) > 0.0;
    }
  }

  lemma AtMostOne(d: real)
    requires d >= 1.0
    ensures 0.0 < 1.0 / d <= 1.0
  {
  }

  /** Scaling a clamped ratio is clamping between the scaled bounds. */
  lemma ScaledClamp(x: real, ratio: real, low: real, up: real)
    requires x > 0.0 && low <= up
    ensures x * Clamp(ratio, low, up) == Clamp(x * ratio, x * low, x * up)
  {
    Scaled(x, ratio, low);
    Scaled(x, low, ratio);
    Scaled(x, ratio, up);
    Scaled(x, low, up);
  }

  lemma Divided(x: real, y: real)
    requires x > 0.0
    ensures x * (y / x) == y
  {
  }

  lemma Over(x: real, d: real)
    requires d > 0.0
    ensures x * (1.0 / d) == x / d
  {
  }

  lemma Spread(x: real, d: real, up: real)
    requires x > 0.0 && d >= 1.0 && up >= 1.0
    ensures x / d <= x <= x * up
  {
    AtMostOne(d);
    Over(x, d);
    Scaled(x, 1.0 / d, 1.0);
    Scaled(x, 1.0, up);
  }

  /** The bounded ratio applied is the aim, bounded. */
  lemma StepBounds(x: real, aim: real, d: real, up: real)
    requires x > 0.0 && d >= 1.0 && up >= 1.0
    ensures Scale(x, aim, d, up) == Clamp(aim, x / d, x * up)
  {
    AtMostOne(d);
    ScaledClamp(x, aim / x, 1.0 / d, up);
    Divided(x, aim);
    Over(x, d);
  }

  // ----- Steps in general

  /** How far one step may go, and whether it is worth taking: the argument
      below needs no more of the factors and the tolerance than `Sensible`. */
  datatype Steps = Steps(low: real -> real, high: real -> real, worth: (real, real) -> bool)

  ghost predicate Sensible(s: Steps) {
    && (forall x :: x > 0.0 ==> s.low(x) <= x)
    && (forall x :: x > 0.0 ==> x <= s.high(x))
    && (forall x :: !s.worth(x, x))
    && (forall x, y, z | s.worth(x, y) && (x <= y <= z || z <= y <= x) :: s.worth(x, z))
  }

  function Bounded(s: Steps, current: real, aim: real): real {
    Clamp(aim, s.low(current), s.high(current))
  }

  function Move(s: Steps, current: real, aim: real): real {
    var next := Bounded(s, current, aim);
    if s.worth(current, next) then next else current
  }

  function StepsOf(c: Config, up: real): Steps
    requires Valid(c)
  {
    Steps(x => x / c.maxStepDown, x => x * up, (x, y) => x > 0.0 && ShouldRetarget(x, y, c.tolerance))
  }

  lemma Nearer(x: real, y: real, z: real)
    requires z > 0.0 && x <= y
    ensures x / z <= y / z
  {
    Divided(z, x);
    Divided(z, y);
    Scaled(z, x / z, y / z);
  }

  lemma WorthFarther(x: real, y: real, z: real, tolerance: real)
    requires x > 0.0 && ShouldRetarget(x, y, tolerance) && (x <= y <= z || z <= y <= x)
    ensures ShouldRetarget(x, z, tolerance)
  {
    Nearer(Abs(y - x), Abs(z - x), x);
  }

  lemma StepsAreSensible(c: Config, up: real)
    requires Valid(c) && up >= 1.0
    ensures Sensible(StepsOf(c, up))
  {
    var s := StepsOf(c, up);
    forall x | x > 0.0 ensures s.low(x) <= x {
      Spread(x, c.maxStepDown, up);
    }
    forall x | x > 0.0 ensures x <= s.high(x) {
      Spread(x, c.maxStepDown, up);
    }
    forall x, y, z | s.worth(x, y) && (x <= y <= z || z <= y <= x) ensures s.worth(x, z) {
      WorthFarther(x, y, z, c.tolerance);
    }
  }

  lemma RatioIsBounded(c: Config, current: real, aim: real, up: real)
    requires Valid(c) && current > 0.0 && up >= 1.0
    ensures Scale(current, aim, c.maxStepDown, up) == Bounded(StepsOf(c, up), current, aim)
  {
    StepBounds(current, aim, c.maxStepDown, up);
  }

  /** The step taken is the bounded aim, kept in the lane. */
  lemma StepValue(c: Config, current: real, aim: real, up: real)
    requires Valid(c) && current > 0.0 && up >= 1.0
    ensures StepToward(c, current, aim, up) ==
            Clamp(Bounded(StepsOf(c, up), current, aim), c.minDifficulty, c.maxDifficulty)
  {
    RatioIsBounded(c, current, aim, up);
    SameClamp(Scale(current, aim, c.maxStepDown, up), Bounded(StepsOf(c, up), current, aim),
              c.minDifficulty, c.maxDifficulty);
  }

  lemma SameClamp(x: real, y: real, least: real, most: real)
    requires x == y
    ensures Clamp(x, least, most) == Clamp(y, least, most)
  {
  }

  /** A bounded aim stays bounded by a lane the step starts in. */
  lemma BoundedInLane(s: Steps, x: real, aim: real, least: real, most: real, next: real)
    requires Sensible(s) && x > 0.0 && least <= x <= most && next == Clamp(Bounded(s, x, aim), least, most)
    ensures least <= next <= most && s.low(x) <= next <= s.high(x)
  {
  }

  /** Toward an aim in the lane the lane does not bite. */
  lemma BoundedTowardLane(s: Steps, x: real, aim: real, least: real, most: real, next: real)
    requires Sensible(s) && x > 0.0 && least <= x <= most && least <= aim <= most
    requires next == Clamp(Bounded(s, x, aim), least, most)
    ensures next == Bounded(s, x, aim)
  {
  }

  /** A step stays in the lane and within both step factors. */
  lemma StepIsBounded(c: Config, current: real, aim: real, up: real)
    requires Valid(c) && InLane(c, current) && up >= 1.0
    ensures InLane(c, StepToward(c, current, aim, up))
    ensures StepsOf(c, up).low(current) <= StepToward(c, current, aim, up) <= StepsOf(c, up).high(current)
  {
    StepsAreSensible(c, up);
    StepValue(c, current, aim, up);
    BoundedInLane(StepsOf(c, up), current, aim, c.minDifficulty, c.maxDifficulty, StepToward(c, current, aim, up));
  }

  /** Whatever the window saw, the next difficulty is in the lane and no
      further from the present one than the step factors allow. */
  lemma NextIsBounded(c: Config, difficulty: real, shares: nat, elapsed: real, work: Option<real>,
                      estimate: Option<real>, initial: bool)
    requires Valid(c) && difficulty > 0.0 && elapsed > 0.0
    requires (work.Some? ==> work.value >= 0.0) && (estimate.Some? ==> estimate.value > 0.0)
    ensures var next := NextDifficulty(c, difficulty, shares, elapsed, work, estimate, initial);
            var current := Clamp(difficulty, c.minDifficulty, c.maxDifficulty);
            var s := StepsOf(c, UpStep(c, initial));
            InLane(c, next) && s.low(current) <= next <= s.high(current)
  {
    var current := Clamp(difficulty, c.minDifficulty, c.maxDifficulty);
    StepIsBounded(c, current, Aim(c, current, shares, elapsed, work, estimate), UpStep(c, initial));
  }

  /** One window's retarget: moved, or left where it is. */
  function Retarget(c: Config, current: real, aim: real): real
    requires Valid(c) && current > 0.0
  {
    var next := StepToward(c, current, aim, c.maxStep);
    if ShouldRetarget(current, next, c.tolerance) then next else current
  }

  lemma RetargetIsMove(c: Config, current: real, aim: real)
    requires Valid(c) && InLane(c, current) && InLane(c, aim)
    ensures Retarget(c, current, aim) == Move(StepsOf(c, c.maxStep), current, aim)
  {
    var s := StepsOf(c, c.maxStep);
    StepsAreSensible(c, c.maxStep);
    StepValue(c, current, aim, c.maxStep);
    BoundedTowardLane(s, current, aim, c.minDifficulty, c.maxDifficulty, StepToward(c, current, aim, c.maxStep));
  }

  // ----- Steps toward a constant aim

  function Iterate(s: Steps, current: real, aim: real, windows: nat): real
    decreases windows
  {
    if windows == 0 then current else Iterate(s, Move(s, current, aim), aim, windows - 1)
  }

  function Repeat(f: real -> real, x: real, n: nat): real
    decreases n
  {
    if n == 0 then x else Repeat(f, f(x), n - 1)
  }

  lemma MoveIsBetween(s: Steps, x: real, aim: real)
    requires Sensible(s) && x > 0.0
    ensures x <= aim ==> x <= Move(s, x, aim) <= aim
    ensures aim <= x ==> aim <= Move(s, x, aim) <= x
  {
  }

  /** At the aim, or nearer to it than a retarget is worth. */
  predicate Settled(s: Steps, current: real, aim: real) {
    !s.worth(current, aim)
  }

  /** Once settled, nothing moves any more. */
  lemma SettledStays(s: Steps, x: real, aim: real)
    requires Sensible(s) && x > 0.0 && Settled(s, x, aim)
    ensures Move(s, x, aim) == x
  {
    MoveIsBetween(s, x, aim);
  }

  lemma {:induction false} StuckStays(s: Steps, x: real, aim: real, windows: nat)
    requires Move(s, x, aim) == x
    ensures Iterate(s, x, aim, windows) == x
    decreases windows
  {
    if windows > 0 {
      StuckStays(s, x, aim, windows - 1);
    }
  }

  /** An aim within one step is reached, or was near enough, and then kept. */
  lemma OneStepSettles(s: Steps, x: real, aim: real, windows: nat)
    requires Sensible(s) && x > 0.0 && aim > 0.0 && s.low(x) <= aim <= s.high(x) && windows > 0
    ensures Settled(s, Iterate(s, x, aim, windows), aim)
  {
    var next := Move(s, x, aim);
    assert Bounded(s, x, aim) == aim;
    SettledStays(s, next, aim);
    StuckStays(s, next, aim, windows - 1);
  }

  /** Full steps up are worth taking, wherever they start. */
  ghost predicate Climbs(s: Steps) {
    forall x :: x > 0.0 ==> s.worth(x, s.high(x))
  }

  ghost predicate Descends(s: Steps) {
    forall x :: x > 0.0 ==> s.worth(x, s.low(x))
  }

  /** Climbing takes no more windows than full steps would. */
  lemma {:induction false} ClimbSettles(s: Steps, x: real, aim: real, windows: nat)
    requires Sensible(s) && Climbs(s) && 0.0 < x <= aim <= Repeat(s.high, x, windows)
    ensures Settled(s, Iterate(s, x, aim, windows), aim)
    decreases windows
  {
    if windows > 0 {
      if aim <= s.high(x) {
        OneStepSettles(s, x, aim, windows);
      } else {
        assert Move(s, x, aim) == s.high(x);
        ClimbSettles(s, s.high(x), aim, windows - 1);
      }
    }
  }

  lemma {:induction false} DescentSettles(s: Steps, x: real, aim: real, windows: nat)
    requires Sensible(s) && Descends(s) && 0.0 < aim <= x && Repeat(s.low, x, windows) <= aim
    ensures Settled(s, Iterate(s, x, aim, windows), aim)
    decreases windows
  {
    if windows > 0 {
      if s.low(x) <= aim {
        OneStepSettles(s, x, aim, windows);
      } else {
        assert Move(s, x, aim) == s.low(x);
        DescentSettles(s, s.low(x), aim, windows - 1);
      }
    }
  }

  ghost predicate SettlesIn(s: Steps, current: real, aim: real, windows: nat) {
    Settled(s, Iterate(s, current, aim, windows), aim)
  }

  // ----- The factors

  ghost function Power(x: real, n: nat): real {
    if n == 0 then 1.0 else x * Power(x, n - 1)
  }

  lemma Moved(x: real, y: real, z: real)
    ensures x * (y * z) == x * y * z
  {
  }

  lemma Followed(x: real, up: real, p: real, q: real)
    requires q == up * p
    ensures x * up * p == x * q
  {
    Moved(x, up, p);
  }

  ghost predicate Scales(f: real -> real, factor: real) {
    forall x :: f(x) == x * factor
  }

  lemma {:induction false} RepeatScaled(f: real -> real, factor: real, x: real, n: nat)
    requires Scales(f, factor)
    ensures Repeat(f, x, n) == x * Power(factor, n)
    decreases n
  {
    if n > 0 {
      RepeatScaled(f, factor, f(x), n - 1);
      Followed(x, factor, Power(factor, n - 1), Power(factor, n));
    }
  }

  lemma Shrunk(x: real, d: real, p: real, y: real)
    requires d > 0.0 && y * p == x / d
    ensures y * (d * p) == x
  {
    assert d * (x / d) == x;
    assert y * (d * p) == d * (y * p);
  }

  lemma {:induction false} RepeatLow(c: Config, up: real, x: real, n: nat)
    requires Valid(c)
    ensures Repeat(StepsOf(c, up).low, x, n) * Power(c.maxStepDown, n) == x
    decreases n
  {
    if n > 0 {
      RepeatLow(c, up, x / c.maxStepDown, n - 1);
      Shrunk(x, c.maxStepDown, Power(c.maxStepDown, n - 1), Repeat(StepsOf(c, up).low, x, n));
    }
  }

  lemma Quotient(x: real, z: real)
    requires x > 0.0
    ensures x * z / x == z
  {
  }

  lemma ChangeRatio(x: real, factor: real)
    requires x > 0.0
    ensures Abs(x * factor - x) / x == Abs(factor - 1.0)
  {
    var change := Abs(factor - 1.0);
    assert x * factor - x == x * (factor - 1.0);
    Scaled(x, 1.0, factor);
    assert Abs(x * factor - x) == x * change;
    Quotient(x, change);
  }

  lemma SameOnlyAtOne(x: real, factor: real)
    requires x > 0.0
    ensures x * factor == x <==> factor == 1.0
  {
    Scaled(x, 1.0, factor);
    Scaled(x, factor, 1.0);
  }

  /** A full step is worth taking exactly when it is at least the tolerance. */
  lemma FullStepWorth(x: real, factor: real, tolerance: real)
    requires x > 0.0
    ensures ShouldRetarget(x, x * factor, tolerance) <==> factor != 1.0 && Abs(factor - 1.0) >= tolerance
  {
    ChangeRatio(x, factor);
    SameOnlyAtOne(x, factor);
  }

  predicate ClimbsFully(c: Config) {
    c.maxStep > 1.0 && c.maxStep - 1.0 >= c.tolerance
  }

  predicate DescendsFully(c: Config)
    requires c.maxStepDown >= 1.0
  {
    c.maxStepDown > 1.0 && 1.0 - 1.0 / c.maxStepDown >= c.tolerance
  }

  lemma WorthUp(c: Config, x: real)
    requires Valid(c) && x > 0.0
    ensures var s := StepsOf(c, c.maxStep); s.worth(x, s.high(x)) <==> ClimbsFully(c)
  {
    FullStepWorth(x, c.maxStep, c.tolerance);
  }

  lemma BelowOne(d: real)
    requires d >= 1.0
    ensures d == 1.0 <==> 1.0 / d == 1.0
  {
  }

  lemma WorthDown(c: Config, x: real)
    requires Valid(c) && x > 0.0
    ensures var s := StepsOf(c, c.maxStep); s.worth(x, s.low(x)) <==> DescendsFully(c)
  {
    var factor := 1.0 / c.maxStepDown;
    AtMostOne(c.maxStepDown);
    BelowOne(c.maxStepDown);
    Over(x, c.maxStepDown);
    FullStepWorth(x, factor, c.tolerance);
  }

  lemma Product(x: real, y: real)
    requires x >= 0.0 && y >= 0.0
    ensures x * y >= 0.0
  {
  }

  lemma Grown(d: real, p: real, gained: real)
    requires d >= 1.0 && gained >= 0.0 && p >= 1.0 + gained
    ensures d * p >= 1.0 + gained + (d - 1.0)
  {
    Product(d - 1.0, p - 1.0);
    assert (d - 1.0) * (p - 1.0) == d * p - d - p + 1.0;
  }

  lemma {:induction false} Bernoulli(d: real, n: nat)
    requires d >= 1.0
    ensures Power(d, n) >= 1.0 + n as real * (d - 1.0)
  {
    if n > 0 {
      Bernoulli(d, n - 1);
      var p, e := Power(d, n - 1), d - 1.0;
      var m := (n - 1) as real;
      Product(m, e);
      Grown(d, p, m * e);
      assert n as real * e == m * e + e by {
        assert n as real == m + 1.0;
      }
    }
  }

  /** A factor above one passes every goal. */
  lemma Reaches(x: real, d: real, goal: real) returns (n: nat)
    requires x > 0.0 && d > 1.0 && goal > 0.0
    ensures goal <= x * Power(d, n)
  {
    var gain := x * (d - 1.0);
    Positive(goal, gain);
    n := (goal / gain).Floor + 1;
    Divided(gain, goal);
    Scaled(gain, goal / gain, n as real);
    Bernoulli(d, n);
    Scaled(x, 1.0 + n as real * (d - 1.0), Power(d, n));
    Spare(x, n as real, d - 1.0);
  }

  lemma Spare(x: real, n: real, e: real)
    requires x > 0.0
    ensures x * (1.0 + n * e) == x + x * e * n
  {
  }

  // ----- Convergence of the retarget

  /** The difficulty after `windows` retargets toward the same aim. */
  function Retargets(c: Config, current: real, aim: real, windows: nat): (d: real)
    requires Valid(c) && InLane(c, current) && InLane(c, aim)
    ensures InLane(c, d)
    decreases windows
  {
    if windows == 0 then current else
    RetargetIsMove(c, current, aim);
    StepsAreSensible(c, c.maxStep);
    MoveIsBetween(StepsOf(c, c.maxStep), current, aim);
    Retargets(c, Retarget(c, current, aim), aim, windows - 1)
  }

  lemma {:induction false} RetargetsIterate(c: Config, current: real, aim: real, windows: nat)
    requires Valid(c) && InLane(c, current) && InLane(c, aim)
    ensures Retargets(c, current, aim, windows) == Iterate(StepsOf(c, c.maxStep), current, aim, windows)
    decreases windows
  {
    if windows > 0 {
      RetargetIsMove(c, current, aim);
      StepsAreSensible(c, c.maxStep);
      MoveIsBetween(StepsOf(c, c.maxStep), current, aim);
      RetargetsIterate(c, Retarget(c, current, aim), aim, windows - 1);
    }
  }

  /** At the aim, or nearer to it than a retarget is worth. */
  predicate Near(c: Config, current: real, aim: real)
    requires current > 0.0
  {
    !ShouldRetarget(current, aim, c.tolerance)
  }

  lemma NearIsSettled(c: Config, current: real, aim: real)
    requires Valid(c) && current > 0.0
    ensures Near(c, current, aim) <==> Settled(StepsOf(c, c.maxStep), current, aim)
  {
  }

  /** A client near its aim is not moved. */
  lemma NearStays(c: Config, current: real, aim: real)
    requires Valid(c) && InLane(c, current) && InLane(c, aim) && Near(c, current, aim)
    ensures Retarget(c, current, aim) == current
  {
    RetargetIsMove(c, current, aim);
    StepsAreSensible(c, c.maxStep);
    NearIsSettled(c, current, aim);
    SettledStays(StepsOf(c, c.maxStep), current, aim);
  }

  ghost predicate NearAfter(c: Config, current: real, aim: real, windows: nat)
    requires Valid(c) && InLane(c, current) && InLane(c, aim)
  {
    Near(c, Retargets(c, current, aim, windows), aim)
  }

  lemma NearAfterIs(c: Config, current: real, aim: real, windows: nat)
    requires Valid(c) && InLane(c, current) && InLane(c, aim)
    ensures NearAfter(c, current, aim, windows) <==> SettlesIn(StepsOf(c, c.maxStep), current, aim, windows)
  {
    RetargetsIterate(c, current, aim, windows);
    NearIsSettled(c, Retargets(c, current, aim, windows), aim);
  }

  lemma StepsClimb(c: Config, current: real, aim: real, windows: nat)
    requires Valid(c) && 0.0 < current <= aim && ClimbsFully(c) && aim <= current * Power(c.maxStep, windows)
    ensures SettlesIn(StepsOf(c, c.maxStep), current, aim, windows)
  {
    var s := StepsOf(c, c.maxStep);
    StepsAreSensible(c, c.maxStep);
    forall x | x > 0.0 ensures s.worth(x, s.high(x)) {
      WorthUp(c, x);
    }
    RepeatScaled(s.high, c.maxStep, current, windows);
    ClimbSettles(s, current, aim, windows);
  }

  lemma AtLeastOne(d: real, n: nat)
    requires d >= 1.0
    ensures Power(d, n) >= 1.0
  {
    Bernoulli(d, n);
    Product(n as real, d - 1.0);
  }

  lemma NoMore(x: real, y: real, p: real)
    requires p >= 1.0 && x * p <= y * p
    ensures x <= y
  {
    Scaled(p, x, y);
  }

  lemma StepsDescend(c: Config, current: real, aim: real, windows: nat)
    requires Valid(c) && 0.0 < aim <= current && DescendsFully(c) && current <= aim * Power(c.maxStepDown, windows)
    ensures SettlesIn(StepsOf(c, c.maxStep), current, aim, windows)
  {
    var s := StepsOf(c, c.maxStep);
    StepsAreSensible(c, c.maxStep);
    forall x | x > 0.0 ensures s.worth(x, s.low(x)) {
      WorthDown(c, x);
    }
    RepeatLow(c, c.maxStep, current, windows);
    AtLeastOne(c.maxStepDown, windows);
    NoMore(Repeat(s.low, current, windows), aim, Power(c.maxStepDown, windows));
    DescentSettles(s, current, aim, windows);
  }

  /** Up to a higher aim: `windows` retargets suffice when that many full
      factors cover the distance, so the count is logarithmic in it. */
  lemma ClimbTakes(c: Config, current: real, aim: real, windows: nat)
    requires Valid(c) && InLane(c, current) && InLane(c, aim) && current <= aim && ClimbsFully(c)
    requires aim <= current * Power(c.maxStep, windows)
    ensures NearAfter(c, current, aim, windows)
  {
    StepsClimb(c, current, aim, windows);
    NearAfterIs(c, current, aim, windows);
  }

  lemma DescentTakes(c: Config, current: real, aim: real, windows: nat)
    requires Valid(c) && InLane(c, current) && InLane(c, aim) && aim <= current && DescendsFully(c)
    requires current <= aim * Power(c.maxStepDown, windows)
    ensures NearAfter(c, current, aim, windows)
  {
    StepsDescend(c, current, aim, windows);
    NearAfterIs(c, current, aim, windows);
  }

  /** That many full steps, up or down, cover the way to the aim. */
  ghost predicate Covers(c: Config, current: real, aim: real, windows: nat) {
    if current <= aim then aim <= current * Power(c.maxStep, windows)
    else current <= aim * Power(c.maxStepDown, windows)
  }

  lemma RetargetsTake(c: Config, current: real, aim: real, windows: nat)
    requires Valid(c) && InLane(c, current) && InLane(c, aim) && ClimbsFully(c) && DescendsFully(c)
    requires Covers(c, current, aim, windows)
    ensures NearAfter(c, current, aim, windows)
  {
    if current <= aim {
      ClimbTakes(c, current, aim, windows);
    } else {
      DescentTakes(c, current, aim, windows);
    }
  }

  /** One step reaches the aim, or full steps toward it are worth taking. */
  predicate CanReach(c: Config, current: real, aim: real)
    requires Valid(c)
  {
    if current <= aim then aim <= StepsOf(c, c.maxStep).high(current) || ClimbsFully(c)
    else StepsOf(c, c.maxStep).low(current) <= aim || DescendsFully(c)
  }

  lemma ReachSettles(c: Config, current: real, aim: real) returns (n: nat)
    requires Valid(c) && current > 0.0 && aim > 0.0 && CanReach(c, current, aim)
    ensures SettlesIn(StepsOf(c, c.maxStep), current, aim, n)
  {
    var s := StepsOf(c, c.maxStep);
    StepsAreSensible(c, c.maxStep);
    if s.low(current) <= aim <= s.high(current) {
      n := 1;
      OneStepSettles(s, current, aim, n);
    } else if current <= aim {
      n := Reaches(current, c.maxStep, aim);
      StepsClimb(c, current, aim, n);
    } else {
      n := Reaches(aim, c.maxStepDown, current);
      StepsDescend(c, current, aim, n);
    }
  }

  lemma CannotReachIsStuck(c: Config, current: real, aim: real)
    requires Valid(c) && current > 0.0 && aim > 0.0 && !CanReach(c, current, aim)
    ensures Move(StepsOf(c, c.maxStep), current, aim) == current
  {
    var s := StepsOf(c, c.maxStep);
    StepsAreSensible(c, c.maxStep);
    WorthUp(c, current);
    WorthDown(c, current);
    assert Bounded(s, current, aim) == if current <= aim then s.high(current) else s.low(current);
  }

  lemma CannotReachStaysAway(c: Config, current: real, aim: real, windows: nat)
    requires Valid(c) && InLane(c, current) && InLane(c, aim)
    requires !Near(c, current, aim) && !CanReach(c, current, aim)
    ensures !NearAfter(c, current, aim, windows)
  {
    CannotReachIsStuck(c, current, aim);
    StuckStays(StepsOf(c, c.maxStep), current, aim, windows);
    RetargetsIterate(c, current, aim, windows);
  }

  ghost predicate NearEventually(c: Config, current: real, aim: real)
    requires Valid(c) && InLane(c, current) && InLane(c, aim)
  {
    exists windows: nat :: NearAfter(c, current, aim, windows)
  }

  /** Retargets come near a constant aim if and only if they start near it or
      can reach it: a tolerance wider than the largest step leaves a far client
      where it is. */
  lemma SettlesExactly(c: Config, current: real, aim: real)
    requires Valid(c) && InLane(c, current) && InLane(c, aim)
    ensures NearEventually(c, current, aim) <==> Near(c, current, aim) || CanReach(c, current, aim)
  {
    if Near(c, current, aim) {
      assert NearAfter(c, current, aim, 0);
    } else if CanReach(c, current, aim) {
      var n := ReachSettles(c, current, aim);
      NearAfterIs(c, current, aim, n);
    } else {
      forall windows: nat ensures !NearAfter(c, current, aim, windows) {
        CannotReachStaysAway(c, current, aim, windows);
      }
    }
  }

  /** A configuration the checks allow, and a client it never moves near. */
  lemma WideToleranceNeverMoves()
    ensures exists c: Config, current, aim ::
              Valid(c) && InLane(c, current) && InLane(c, aim) && !NearEventually(c, current, aim)
  {
    var c := Config(10.0, 1.0, 100.0, 1.1, 2.0, 0.4, 0.25, true, 64.0);
    assert Valid(c) && InLane(c, 1.0) && InLane(c, 100.0);
    SettlesExactly(c, 1.0, 100.0);
    assert !Near(c, 1.0, 100.0);
  }

  // ----- The estimate

  lemma Mixed(o: real, p: real, alpha: real, least: real, most: real)
    requires 0.0 <= alpha <= 1.0 && least <= o <= most && least <= p <= most
    ensures least <= o * alpha + p * (1.0 - alpha) <= most
    ensures o * alpha + p * (1.0 - alpha) - o == (p - o) * (1.0 - alpha)
  {
    Product(alpha, o - least);
    Product(1.0 - alpha, p - least);
    Product(alpha, most - o);
    Product(1.0 - alpha, most - p);
  }

  /** Within the lane the estimate's error shrinks by a fixed factor a window. */
  lemma ErrorShrinks(c: Config, o: real, p: real)
    requires Valid(c) && InLane(c, o) && InLane(c, p)
    ensures Smooth(c, o, Some(p)) - o == (p - o) * (1.0 - c.alpha)
    ensures InLane(c, Smooth(c, o, Some(p)))
  {
    Mixed(o, p, c.alpha, c.minDifficulty, c.maxDifficulty);
  }

  /** Within the lane `f` moves as `shrink` does around `o`. */
  ghost predicate Contracts(f: real -> real, o: real, shrink: real -> real, least: real, most: real) {
    forall x :: least <= x <= most ==> least <= f(x) <= most && f(x) - o == shrink(x - o)
  }

  lemma {:induction false} Contracted(f: real -> real, o: real, shrink: real -> real, least: real, most: real,
      p: real, n: nat)
    requires Contracts(f, o, shrink, least, most) && least <= p <= most
    ensures Repeat(f, p, n) - o == Repeat(shrink, p - o, n)
    decreases n
  {
    if n > 0 {
      Contracted(f, o, shrink, least, most, f(p), n - 1);
    }
  }

  function Smoothing(c: Config, o: real): real -> real {
    x => Smooth(c, o, Some(x))
  }

  /** What one window keeps of an error. */
  function Kept(c: Config): real -> real {
    x => x * (1.0 - c.alpha)
  }

  lemma SmoothingKeeps(c: Config, o: real, x: real)
    requires Valid(c) && InLane(c, o) && InLane(c, x)
    ensures InLane(c, Smoothing(c, o)(x)) && Smoothing(c, o)(x) - o == Kept(c)(x - o)
  {
    ErrorShrinks(c, o, x);
  }

  lemma SmoothingContracts(c: Config, o: real)
    requires Valid(c) && InLane(c, o)
    ensures Contracts(Smoothing(c, o), o, Kept(c), c.minDifficulty, c.maxDifficulty)
  {
    var f, kept := Smoothing(c, o), Kept(c);
    forall x | c.minDifficulty <= x <= c.maxDifficulty
      ensures c.minDifficulty <= f(x) <= c.maxDifficulty && f(x) - o == kept(x - o)
    {
      SmoothingKeeps(c, o, x);
    }
  }

  lemma KeptPower(c: Config, error: real, windows: nat)
    ensures Repeat(Kept(c), error, windows) == error * Power(1.0 - c.alpha, windows)
  {
    RepeatScaled(Kept(c), 1.0 - c.alpha, error, windows);
  }

  /** After `windows` windows that all observed `o`, the estimate's error is
      its first error times that power of what one window keeps. */
  lemma EstimateConverges(c: Config, o: real, p: real, windows: nat, error: real)
    requires Valid(c) && InLane(c, o) && InLane(c, p) && error == p - o
    ensures Repeat(Smoothing(c, o), p, windows) - o == error * Power(1.0 - c.alpha, windows)
  {
    SmoothingContracts(c, o);
    Contracted(Smoothing(c, o), o, Kept(c), c.minDifficulty, c.maxDifficulty, p, windows);
    KeptPower(c, error, windows);
  }

  // ----- The client

  /** A window's new estimate: dropped when no work came. */
  function NextEstimate(c: Config, previous: Option<real>, work: real, elapsed: real): (e: Option<real>)
    requires Valid(c) && work >= 0.0 && elapsed > 0.0
    ensures e.Some? ==> InLane(c, e.value)
  {
    match Observed(work, elapsed, c.targetInterval)
    case None => None
    case Some(o) => Some(Smooth(c, o, previous))
  }

  datatype Tracked = Tracked(difficulty: real, estimate: Option<real>)

  /** A client after one window that nothing else interfered with. */
  function AfterWindow(c: Config, t: Tracked, shares: nat, work: real, elapsed: real): (r: Tracked)
    requires Valid(c) && InLane(c, t.difficulty) && work >= 0.0 && elapsed > 0.0
    ensures InLane(c, r.difficulty)
  {
    var estimate := NextEstimate(c, t.estimate, work, elapsed);
    var next := NextDifficulty(c, t.difficulty, shares, elapsed, Some(work), estimate, false);
    NextIsBounded(c, t.difficulty, shares, elapsed, Some(work), estimate, false);
    Tracked(if ShouldRetarget(t.difficulty, next, c.tolerance) then next else t.difficulty, estimate)
  }

  function AfterWindows(c: Config, t: Tracked, shares: nat, work: real, elapsed: real, windows: nat): (r: Tracked)
    requires Valid(c) && InLane(c, t.difficulty) && work >= 0.0 && elapsed > 0.0
    ensures InLane(c, r.difficulty)
    decreases windows
  {
    if windows == 0 then t
    else AfterWindows(c, AfterWindow(c, t, shares, work, elapsed), shares, work, elapsed, windows - 1)
  }

  class Client {
    var share: real
    var pending: Option<real>
    var estimate: Option<real>

    constructor (difficulty: real)
      ensures share == difficulty && pending == None && estimate == None
    {
      share, pending, estimate := difficulty, None, None;
    }

    /** What the client works at, or is about to. */
    function Difficulty(): real
      reads this
    {
      if pending.Some? then pending.value else share
    }

    /** One window's retarget. `current` was read when the window closed: a
        change since then voids the move but not the new estimate. */
    method Retarget(c: Config, current: real, shares: nat, work: real, elapsed: real)
      requires Valid(c) && current > 0.0 && work >= 0.0 && elapsed > 0.0
      modifies this
      ensures share == old(share)
      ensures estimate == NextEstimate(c, old(estimate), work, elapsed)
      ensures var next := NextDifficulty(c, current, shares, elapsed, Some(work), estimate, false);
              Difficulty() == if current == old(Difficulty()) && ShouldRetarget(current, next, c.tolerance)
                              then next else old(Difficulty())
      ensures old(InLane(c, Difficulty())) ==> InLane(c, Difficulty())
      ensures old(InLane(c, Difficulty())) && current == old(Difficulty()) ==>
                Tracked(Difficulty(), estimate) ==
                AfterWindow(c, old(Tracked(Difficulty(), estimate)), shares, work, elapsed)
    {
      var observed := Observed(work, elapsed, c.targetInterval);
      if observed == None {
        estimate := None;
      } else {
        estimate := Some(Smooth(c, observed.value, estimate));
      }
      var next := NextDifficulty(c, current, shares, elapsed, Some(work), estimate, false);
      NextIsBounded(c, current, shares, elapsed, Some(work), estimate, false);
      if !ShouldRetarget(current, next, c.tolerance) {
        return;
      }
      var previous := Difficulty();
      if previous != current {
        return;
      }
      pending := Some(next);
    }
  }

  // ----- Windows that all observe one difficulty

  /** What a client is driven to when its windows observe `o`. */
  function Target(c: Config, o: real): (r: real)
    ensures Valid(c) ==> InLane(c, r)
    ensures InLane(c, o) ==> r == o
  {
    Clamp(o, c.minDifficulty, c.maxDifficulty)
  }

  /** The estimate holds nothing of an earlier rate, or is about to drop it. */
  predicate Fresh(c: Config, estimate: Option<real>, o: real) {
    estimate == None || estimate == Some(Target(c, o)) || c.alpha == 1.0
  }

  lemma Raised(x: real, y: real, alpha: real, more: real)
    requires alpha >= 0.0 && x <= y
    ensures x * alpha + more <= y * alpha + more
  {
    Product(alpha, y - x);
  }

  lemma MixIs(c: Config, p: real, x: real, more: real)
    requires more == p * (1.0 - c.alpha)
    ensures Mixture(c, x, p) == x * c.alpha + more
  {
  }

  lemma MixRises(c: Config, p: real, x: real, y: real)
    requires Valid(c) && x <= y
    ensures Mixture(c, x, p) <= Mixture(c, y, p)
  {
    var more := p * (1.0 - c.alpha);
    MixIs(c, p, x, more);
    MixIs(c, p, y, more);
    Raised(x, y, c.alpha, more);
  }

  lemma MixInLane(c: Config, p: real, r: real)
    requires Valid(c) && InLane(c, r) && InLane(c, p)
    ensures InLane(c, Mixture(c, r, p))
  {
    MixIs(c, p, r, p * (1.0 - c.alpha));
    MixedBounds(r, p, c.alpha, c.minDifficulty, c.maxDifficulty);
  }

  lemma MixedBounds(o: real, p: real, alpha: real, least: real, most: real)
    requires 0.0 <= alpha <= 1.0 && least <= o <= most && least <= p <= most
    ensures least <= o * alpha + p * (1.0 - alpha) <= most
  {
    Mixed(o, p, alpha, least, most);
  }

  /** Bounding what is mixed beyond the lane's end leaves it beyond what is
      mixed at that end. */
  lemma ClampedBetween(atEnd: real, mixed: real, r: real, o: real, least: real, most: real)
    requires least <= atEnd <= most && (r <= o ==> atEnd <= mixed) && (o <= r ==> mixed <= atEnd)
    ensures var e := Clamp(mixed, least, most);
            least <= e <= most && (r <= o ==> atEnd <= e) && (o <= r ==> e <= atEnd)
  {
  }

  lemma SmoothTarget(c: Config, o: real, p: real)
    requires Valid(c) && InLane(c, p)
    ensures var mixed, e := Mixture(c, Target(c, o), p), Smooth(c, o, Some(p));
            InLane(c, e) && InLane(c, mixed) && (Target(c, o) <= o ==> mixed <= e) && (o <= Target(c, o) ==> e <= mixed)
  {
    var r := Target(c, o);
    MixInLane(c, p, r);
    if r <= o {
      MixRises(c, p, r, o);
    } else {
      MixRises(c, p, o, r);
    }
    ClampedBetween(Mixture(c, r, p), Mixture(c, o, p), r, o, c.minDifficulty, c.maxDifficulty);
  }

  lemma MixedAtEnd(c: Config, r: real)
    ensures Mixture(c, r, r) == r
  {
  }

  lemma FreshSmooths(c: Config, estimate: Option<real>, o: real)
    requires Valid(c) && Fresh(c, estimate, o)
    ensures Smooth(c, o, estimate) == Target(c, o)
  {
    if estimate == Some(Target(c, o)) {
      MixedAtEnd(c, Target(c, o));
      SmoothTarget(c, o, Target(c, o));
    }
  }

  lemma EqualWindow(c: Config, t: Tracked, shares: nat, work: real, elapsed: real, o: real)
    requires Valid(c) && InLane(c, t.difficulty) && work >= 0.0 && elapsed > 0.0
    requires Observed(work, elapsed, c.targetInterval) == Some(o) && Fresh(c, t.estimate, o)
    ensures AfterWindow(c, t, shares, work, elapsed) ==
            Tracked(Retarget(c, t.difficulty, Target(c, o)), Some(Target(c, o)))
  {
    FreshSmooths(c, t.estimate, o);
  }

  /** Windows that all observe `o` drive a client with a fresh estimate as
      retargets toward `o` do. */
  lemma {:induction false} EqualWindowsRetarget(c: Config, t: Tracked, shares: nat, work: real, elapsed: real,
                                                o: real, windows: nat)
    requires Valid(c) && InLane(c, t.difficulty) && work >= 0.0 && elapsed > 0.0
    requires Observed(work, elapsed, c.targetInterval) == Some(o) && Fresh(c, t.estimate, o)
    ensures AfterWindows(c, t, shares, work, elapsed, windows).difficulty ==
            Retargets(c, t.difficulty, Target(c, o), windows)
    decreases windows
  {
    if windows > 0 {
      EqualWindow(c, t, shares, work, elapsed, o);
      EqualWindowsRetarget(c, AfterWindow(c, t, shares, work, elapsed), shares, work, elapsed, o, windows - 1);
    }
  }

  /** The client works near what its windows observe. */
  ghost predicate ClientNear(c: Config, t: Tracked, shares: nat, work: real, elapsed: real, o: real, windows: nat)
    requires Valid(c) && InLane(c, t.difficulty) && work >= 0.0 && elapsed > 0.0
  {
    Near(c, AfterWindows(c, t, shares, work, elapsed, windows).difficulty, Target(c, o))
  }

  lemma ClientNearIs(c: Config, t: Tracked, shares: nat, work: real, elapsed: real, o: real, windows: nat)
    requires Valid(c) && InLane(c, t.difficulty) && work >= 0.0 && elapsed > 0.0
    requires Observed(work, elapsed, c.targetInterval) == Some(o) && Fresh(c, t.estimate, o)
    ensures ClientNear(c, t, shares, work, elapsed, o, windows) <==>
            NearAfter(c, t.difficulty, Target(c, o), windows)
  {
    EqualWindowsRetarget(c, t, shares, work, elapsed, o, windows);
  }

  /** With a fresh estimate, a client whose windows all observe `o` is near it
      after as many windows as full factors cover the distance, upward or
      downward. */
  lemma ClientConverges(c: Config, t: Tracked, shares: nat, work: real, elapsed: real, o: real, windows: nat)
    requires Valid(c) && InLane(c, t.difficulty) && work >= 0.0 && elapsed > 0.0
    requires Observed(work, elapsed, c.targetInterval) == Some(o) && Fresh(c, t.estimate, o)
    requires ClimbsFully(c) && DescendsFully(c) && Covers(c, t.difficulty, Target(c, o), windows)
    ensures ClientNear(c, t, shares, work, elapsed, o, windows)
  {
    RetargetsTake(c, t.difficulty, Target(c, o), windows);
    ClientNearIs(c, t, shares, work, elapsed, o, windows);
  }

  /** Such a client ever comes near exactly when it starts near or can reach. */
  lemma ClientConvergesExactly(c: Config, t: Tracked, shares: nat, work: real, elapsed: real, o: real)
    requires Valid(c) && InLane(c, t.difficulty) && work >= 0.0 && elapsed > 0.0
    requires Observed(work, elapsed, c.targetInterval) == Some(o) && Fresh(c, t.estimate, o)
    ensures (exists windows: nat :: ClientNear(c, t, shares, work, elapsed, o, windows)) <==>
              Near(c, t.difficulty, Target(c, o)) || CanReach(c, t.difficulty, Target(c, o))
  {
    var aim := Target(c, o);
    SettlesExactly(c, t.difficulty, aim);
    forall windows: nat
      ensures ClientNear(c, t, shares, work, elapsed, o, windows) <==> NearAfter(c, t.difficulty, aim, windows)
    {
      ClientNearIs(c, t, shares, work, elapsed, o, windows);
    }
    if NearEventually(c, t.difficulty, aim) {
      var windows: nat :| NearAfter(c, t.difficulty, aim, windows);
      assert ClientNear(c, t, shares, work, elapsed, o, windows);
    }
  }
}
