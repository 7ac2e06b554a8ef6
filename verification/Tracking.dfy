/** A client whose rate changed: its estimate starts at the earlier rate and
    only approaches the new one, and each retarget aims at where the estimate
    then is. */
module Tracking {
  import opened Basics
  import opened Vardiff

  // ----- Following a moving aim

  /** The difficulty after `n` windows: each makes the next estimate and moves
      toward that. */
  function Follow(s: Steps, next: real -> real, x: real, e: real, n: nat): real
    decreases n
  {
    if n == 0 then x else Follow(s, next, Move(s, x, next(e)), next(e), n - 1)
  }

  lemma {:induction false} FollowSplits(s: Steps, next: real -> real, x: real, e: real, m: nat, n: nat)
    ensures Follow(s, next, x, e, m + n) == Follow(s, next, Follow(s, next, x, e, m), Repeat(next, e, m), n)
    decreases m
  {
    if m > 0 {
      FollowSplits(s, next, Move(s, x, next(e)), next(e), m - 1, n);
    }
  }

  /** Estimates that have come near the goal are `calm`, difficulties that have
      are `close`. */
  datatype Pursuit = Pursuit(
    steps: Steps,
    next: real -> real,
    least: real,
    most: real,
    calm: real -> bool,
    close: real -> bool,
    goal: real)

  /** From `x` the estimate `e` lies on the goal's side, and far enough. */
  ghost predicate Pulls(p: Pursuit, x: real, e: real) {
    && (x < p.goal ==> x < e && p.steps.worth(x, e))
    && (p.goal < x ==> e < x && p.steps.worth(x, e))
  }

  predicate OnLane(p: Pursuit, x: real) { p.least <= x <= p.most }

  /** Whatever lies between close difficulties is close. */
  ghost predicate Fills(p: Pursuit, x: real, y: real, z: real) {
    p.close(x) && p.close(z) && (x <= y <= z || z <= y <= x) ==> p.close(y)
  }

  ghost predicate Sound(p: Pursuit) {
    && Sensible(p.steps) && p.least > 0.0
    && (forall e :: p.calm(e) ==> p.close(e))
    && (forall e {:trigger p.next(e)} :: p.calm(e) ==> p.calm(p.next(e)))
    && p.close(p.goal)
    && (forall x :: p.close(x) ==> OnLane(p, x))
    && (forall x, y, z :: Fills(p, x, y, z))
    && (forall x, e :: OnLane(p, x) && !p.close(x) && p.calm(e) ==> Pulls(p, x, e))
  }

  /** A close client stays close. */
  lemma {:induction false} StaysClose(p: Pursuit, x: real, e: real, n: nat)
    requires Sound(p) && p.close(x) && p.calm(e)
    ensures p.close(Follow(p.steps, p.next, x, e, n))
    decreases n
  {
    if n > 0 {
      MoveIsBetween(p.steps, x, p.next(e));
      assert Fills(p, x, Move(p.steps, x, p.next(e)), p.next(e));
      StaysClose(p, Move(p.steps, x, p.next(e)), p.next(e), n - 1);
    }
  }

  /** Wherever a client is too low, a full step up is worth taking. */
  ghost predicate Ascends(p: Pursuit) {
    forall x :: OnLane(p, x) && !p.close(x) && x < p.goal ==> p.steps.worth(x, p.steps.high(x))
  }

  ghost predicate Sinks(p: Pursuit) {
    forall x :: OnLane(p, x) && !p.close(x) && p.goal < x ==> p.steps.worth(x, p.steps.low(x))
  }

  /** One window of a client that is too low. */
  lemma OneUp(p: Pursuit, x: real, e: real)
    requires Sound(p) && Ascends(p) && OnLane(p, x) && !p.close(x) && x < p.goal && p.calm(e)
    ensures var y := Move(p.steps, x, e); p.close(y) || (y == p.steps.high(x) && OnLane(p, y) && y < p.goal)
  {
    assert Pulls(p, x, e);
    MoveIsBetween(p.steps, x, e);
    assert Fills(p, p.goal, Move(p.steps, x, e), e);
    if e > p.steps.high(x) {
      assert Bounded(p.steps, x, e) == p.steps.high(x);
    }
  }

  lemma OneDown(p: Pursuit, x: real, e: real)
    requires Sound(p) && Sinks(p) && OnLane(p, x) && !p.close(x) && p.goal < x && p.calm(e)
    ensures var y := Move(p.steps, x, e); p.close(y) || (y == p.steps.low(x) && OnLane(p, y) && p.goal < y)
  {
    assert Pulls(p, x, e);
    MoveIsBetween(p.steps, x, e);
    assert Fills(p, p.goal, Move(p.steps, x, e), e);
    if e < p.steps.low(x) {
      assert Bounded(p.steps, x, e) == p.steps.low(x);
    }
  }

  /** Climbing takes no more windows than full steps would. */
  lemma {:induction false} ClimbArrives(p: Pursuit, x: real, e: real, n: nat)
    requires Sound(p) && Ascends(p) && OnLane(p, x) && x <= p.goal <= Repeat(p.steps.high, x, n) && p.calm(e)
    ensures p.close(Follow(p.steps, p.next, x, e, n))
    decreases n
  {
    if p.close(x) {
      StaysClose(p, x, e, n);
    } else {
      var y := Move(p.steps, x, p.next(e));
      OneUp(p, x, p.next(e));
      if p.close(y) {
        StaysClose(p, y, p.next(e), n - 1);
      } else {
        ClimbArrives(p, y, p.next(e), n - 1);
      }
    }
  }

  lemma {:induction false} DescentArrives(p: Pursuit, x: real, e: real, n: nat)
    requires Sound(p) && Sinks(p) && OnLane(p, x) && Repeat(p.steps.low, x, n) <= p.goal <= x && p.calm(e)
    ensures p.close(Follow(p.steps, p.next, x, e, n))
    decreases n
  {
    if p.close(x) {
      StaysClose(p, x, e, n);
    } else {
      var y := Move(p.steps, x, p.next(e));
      OneDown(p, x, p.next(e));
      if p.close(y) {
        StaysClose(p, y, p.next(e), n - 1);
      } else {
        DescentArrives(p, y, p.next(e), n - 1);
      }
    }
  }

  lemma {:induction false} StaysCalm(p: Pursuit, e: real, n: nat)
    requires Sound(p) && p.calm(e)
    ensures p.calm(Repeat(p.next, e, n))
    decreases n
  {
    if n > 0 {
      StaysCalm(p, p.next(e), n - 1);
    }
  }

  /** Close already, or `k` full steps cover the way. */
  ghost predicate Reachable(p: Pursuit, x: real, k: nat) {
    || p.close(x)
    || x <= p.goal <= Repeat(p.steps.high, x, k)
    || Repeat(p.steps.low, x, k) <= p.goal <= x
  }

  lemma ArrivesAt(p: Pursuit, x: real, e: real, k: nat)
    requires Sound(p) && Ascends(p) && Sinks(p) && OnLane(p, x) && p.calm(e) && Reachable(p, x, k)
    ensures p.close(Follow(p.steps, p.next, x, e, k))
  {
    if p.close(x) {
      StaysClose(p, x, e, k);
    } else if x <= p.goal <= Repeat(p.steps.high, x, k) {
      ClimbArrives(p, x, e, k);
    } else {
      DescentArrives(p, x, e, k);
    }
  }

  /** From a calm estimate on, a client gets close and stays so. */
  lemma Arrives(p: Pursuit, x: real, e: real, k: nat, n: nat)
    requires Sound(p) && Ascends(p) && Sinks(p) && OnLane(p, x) && p.calm(e) && Reachable(p, x, k) && n >= k
    ensures p.close(Follow(p.steps, p.next, x, e, n))
  {
    ArrivesAt(p, x, e, k);
    StaysCalm(p, e, k);
    FollowSplits(p.steps, p.next, x, e, k, n - k);
    StaysClose(p, Follow(p.steps, p.next, x, e, k), Repeat(p.next, e, k), n - k);
  }

  // ----- The client's pursuit

  /** Within the tolerance and some slack, measured as the retarget does. */
  predicate Within(c: Config, d: real, aim: real, slack: real) {
    Abs(aim - d) <= c.tolerance * d + slack * d
  }

  /** Estimates are calm within `slack` of the lane's lower end. */
  predicate Calm(c: Config, e: real, aim: real, slack: real) {
    InLane(c, e) && Abs(e - aim) <= slack * c.minDifficulty
  }

  lemma WithinIs(c: Config, d: real, aim: real, slack: real)
    ensures Within(c, d, aim, slack) <==> Abs(aim - d) <= (c.tolerance + slack) * d
  {
  }

  lemma InBand(aim: real, w: real, x: real, y: real, z: real)
    requires 0.0 < x <= y <= z && w >= 0.0 && aim >= 0.0 && Abs(aim - x) <= w * x && Abs(aim - z) <= w * z
    ensures Abs(aim - y) <= w * y
  {
    Product(w, y - x);
    if w <= 1.0 {
      Product(1.0 - w, z - y);
    } else {
      Product(w - 1.0, y);
    }
  }

  lemma CalmIsWithin(c: Config, e: real, aim: real, slack: real)
    requires Valid(c) && slack > 0.0 && Calm(c, e, aim, slack)
    ensures Within(c, e, aim, slack)
  {
    Product(c.tolerance, e);
    Scaled(slack, c.minDifficulty, e);
  }

  lemma RatioAtLeast(x: real, change: real, tolerance: real)
    requires x > 0.0 && change >= tolerance * x
    ensures change / x >= tolerance
  {
    Divided(x, change);
    Scaled(x, tolerance, change / x);
  }

  lemma CalmIsNear(c: Config, x: real, e: real, aim: real, slack: real)
    requires Valid(c) && slack > 0.0 && InLane(c, x) && Calm(c, e, aim, slack)
    ensures Abs(e - aim) <= slack * x
  {
    Product(slack, x - c.minDifficulty);
  }

  lemma NearIsFar(x: real, e: real, aim: real, tolerance: real, slack: real)
    requires x > 0.0 && tolerance >= 0.0 && Abs(aim - x) > tolerance * x + slack * x && Abs(e - aim) <= slack * x
    ensures (x < aim ==> x < e) && (aim < x ==> e < x) && e != x && Abs(e - x) >= tolerance * x
  {
    Product(tolerance, x);
    Farther(x, e, aim, tolerance * x, slack * x);
  }

  lemma Farther(x: real, e: real, aim: real, least: real, spare: real)
    requires Abs(aim - x) > least + spare && least >= 0.0 && Abs(e - aim) <= spare
    ensures (x < aim ==> x < e) && (aim < x ==> e < x) && e != x && Abs(e - x) >= least
  {
  }

  lemma FarIsWorth(x: real, e: real, tolerance: real)
    requires x > 0.0 && e != x && Abs(e - x) >= tolerance * x
    ensures ShouldRetarget(x, e, tolerance)
  {
    RatioAtLeast(x, Abs(e - x), tolerance);
  }

  /** Outside that band, a calm estimate is worth moving to. */
  lemma CalmPulls(c: Config, x: real, e: real, aim: real, slack: real)
    requires Valid(c) && slack > 0.0 && InLane(c, x) && !Within(c, x, aim, slack) && Calm(c, e, aim, slack)
    ensures (x < aim ==> x < e) && (aim < x ==> e < x) && ShouldRetarget(x, e, c.tolerance)
  {
    CalmIsNear(c, x, e, aim, slack);
    NearIsFar(x, e, aim, c.tolerance, slack);
    FarIsWorth(x, e, c.tolerance);
  }

  lemma MixedError(c: Config, r: real, p: real)
    ensures Mixture(c, r, p) - r == (p - r) * (1.0 - c.alpha)
  {
  }

  lemma MixedDistance(c: Config, r: real, p: real)
    requires Valid(c)
    ensures Abs(Mixture(c, r, p) - r) == Abs(p - r) * (1.0 - c.alpha)
  {
    MixedError(c, r, p);
    ScaledDistance(Mixture(c, r, p), r, p, 1.0 - c.alpha);
  }

  lemma ScaledDistance(mixed: real, r: real, p: real, k: real)
    requires mixed - r == (p - r) * k && k >= 0.0
    ensures Abs(mixed - r) == Abs(p - r) * k
  {
    SignedScale(p - r, k);
  }

  lemma NoFarther(e: real, mixed: real, r: real, o: real)
    requires (r <= o ==> mixed <= e) && (o <= r ==> e <= mixed) && (r < o ==> e <= r) && (o < r ==> r <= e)
    ensures Abs(e - r) <= Abs(mixed - r)
  {
  }

  lemma SmoothNears(c: Config, o: real, p: real)
    requires Valid(c) && InLane(c, p)
    ensures InLane(c, Smooth(c, o, Some(p)))
    ensures Abs(Smooth(c, o, Some(p)) - Target(c, o)) <= Abs(Mixture(c, Target(c, o), p) - Target(c, o))
  {
    SmoothTarget(c, o, p);
    NoFarther(Smooth(c, o, Some(p)), Mixture(c, Target(c, o), p), Target(c, o), o);
  }

  /** A window brings the estimate nearer to its target by a fixed factor. */
  lemma ErrorContracts(c: Config, o: real, p: real)
    requires Valid(c) && InLane(c, p)
    ensures InLane(c, Smooth(c, o, Some(p)))
    ensures Abs(Smooth(c, o, Some(p)) - Target(c, o)) <= Abs(p - Target(c, o)) * (1.0 - c.alpha)
  {
    SmoothNears(c, o, p);
    MixedDistance(c, Target(c, o), p);
  }

  lemma SignedScale(x: real, k: real)
    requires k >= 0.0
    ensures Abs(x * k) == Abs(x) * k
  {
    if x < 0.0 {
      Product(-x, k);
      assert x * k == -(-x * k);
    } else {
      Product(x, k);
    }
  }

  lemma CalmStays(c: Config, o: real, e: real, slack: real)
    requires Valid(c) && Calm(c, e, Target(c, o), slack)
    ensures Calm(c, Smoothing(c, o)(e), Target(c, o), slack)
  {
    ErrorContracts(c, o, e);
    Product(Abs(e - Target(c, o)), c.alpha);
  }

  ghost function PursuitOf(c: Config, o: real, slack: real): Pursuit
    requires Valid(c)
  {
    Pursuit(
      StepsOf(c, c.maxStep),
      Smoothing(c, o),
      c.minDifficulty,
      c.maxDifficulty,
      e => Calm(c, e, Target(c, o), slack),
      x => InLane(c, x) && Within(c, x, Target(c, o), slack),
      Target(c, o))
  }

  lemma BandFills(c: Config, o: real, slack: real, x: real, y: real, z: real)
    requires Valid(c) && slack > 0.0
    ensures Fills(PursuitOf(c, o, slack), x, y, z)
  {
    var p, r, width := PursuitOf(c, o, slack), Target(c, o), c.tolerance + slack;
    if p.close(x) && p.close(z) {
      WithinIs(c, x, r, slack);
      WithinIs(c, y, r, slack);
      WithinIs(c, z, r, slack);
      if x <= y <= z {
        InBand(r, width, x, y, z);
      } else if z <= y <= x {
        InBand(r, width, z, y, x);
      }
    }
  }

  lemma GoalIsClose(c: Config, o: real, slack: real)
    requires Valid(c) && slack > 0.0
    ensures PursuitOf(c, o, slack).close(Target(c, o))
  {
    Product(c.tolerance, Target(c, o));
    Product(slack, Target(c, o));
  }

  lemma PursuitIsSound(c: Config, o: real, slack: real)
    requires Valid(c) && slack > 0.0
    ensures Sound(PursuitOf(c, o, slack))
  {
    var p, r := PursuitOf(c, o, slack), Target(c, o);
    StepsAreSensible(c, c.maxStep);
    GoalIsClose(c, o, slack);
    forall e | p.calm(e) ensures p.close(e) {
      CalmIsWithin(c, e, r, slack);
    }
    forall e | p.calm(e) ensures p.calm(p.next(e)) {
      CalmStays(c, o, e, slack);
    }
    forall x, e | OnLane(p, x) && !p.close(x) && p.calm(e) ensures Pulls(p, x, e) {
      CalmPulls(c, x, e, r, slack);
    }
    forall x, y, z ensures Fills(p, x, y, z) {
      BandFills(c, o, slack, x, y, z);
    }
  }

  /** No client of the lane is too low for any aim in it. */
  predicate NarrowUp(c: Config) { c.maxDifficulty - c.minDifficulty <= c.tolerance * c.minDifficulty }

  predicate NarrowDown(c: Config) { c.maxDifficulty - c.minDifficulty <= c.tolerance * c.maxDifficulty }

  /** In either direction a full step is worth taking, or none is needed. */
  predicate Steers(c: Config)
    requires Valid(c)
  {
    (ClimbsFully(c) || NarrowUp(c)) && (DescendsFully(c) || NarrowDown(c))
  }

  lemma NarrowUpIsWithin(c: Config, x: real, aim: real, slack: real)
    requires Valid(c) && NarrowUp(c) && InLane(c, x) && InLane(c, aim) && x <= aim && slack >= 0.0
    ensures Within(c, x, aim, slack)
  {
    Product(c.tolerance, x - c.minDifficulty);
    Product(slack, x);
  }

  lemma NarrowDownIsWithin(c: Config, x: real, aim: real, slack: real)
    requires Valid(c) && NarrowDown(c) && InLane(c, x) && InLane(c, aim) && aim <= x && slack >= 0.0
    ensures Within(c, x, aim, slack)
  {
    Product(slack, x);
    if c.tolerance <= 1.0 {
      Product(1.0 - c.tolerance, c.maxDifficulty - x);
    } else {
      Product(c.tolerance - 1.0, x);
    }
  }

  lemma SteersBoth(c: Config, o: real, slack: real)
    requires Valid(c) && Steers(c) && slack > 0.0
    ensures Ascends(PursuitOf(c, o, slack)) && Sinks(PursuitOf(c, o, slack))
  {
    var p, r := PursuitOf(c, o, slack), Target(c, o);
    forall x | OnLane(p, x) && !p.close(x) && x < r ensures p.steps.worth(x, p.steps.high(x)) {
      WorthUp(c, x);
      if NarrowUp(c) {
        NarrowUpIsWithin(c, x, r, slack);
      }
    }
    forall x | OnLane(p, x) && !p.close(x) && r < x ensures p.steps.worth(x, p.steps.low(x)) {
      WorthDown(c, x);
      if NarrowDown(c) {
        NarrowDownIsWithin(c, x, r, slack);
      }
    }
  }

  // ----- The client

  datatype Window = Window(shares: nat, work: real, elapsed: real)

  predicate Measured(w: Window) { w.work >= 0.0 && w.elapsed > 0.0 }

  predicate Observes(c: Config, w: Window, o: real)
    requires Valid(c)
  {
    Measured(w) && Observed(w.work, w.elapsed, c.targetInterval) == Some(o)
  }

  /** What every client keeps: its difficulty and its estimate are in the lane. */
  predicate Sane(c: Config, t: Tracked) {
    InLane(c, t.difficulty) && (t.estimate.Some? ==> InLane(c, t.estimate.value))
  }

  /** The client's difficulty after `n` windows like `w`. */
  function After(c: Config, t: Tracked, w: Window, n: nat): (d: real)
    requires Valid(c) && Sane(c, t) && Measured(w)
    ensures InLane(c, d)
  {
    AfterWindows(c, t, w.shares, w.work, w.elapsed, n).difficulty
  }

  /** The estimate a client holds; with none, the first window makes one. */
  function Estimate(c: Config, t: Tracked, o: real): (p: real)
    requires Valid(c) && Sane(c, t)
    ensures InLane(c, p)
  {
    if t.estimate.Some? then t.estimate.value else Target(c, o)
  }

  lemma OneWindow(c: Config, t: Tracked, w: Window, o: real)
    requires Valid(c) && Sane(c, t) && Observes(c, w, o)
    ensures var e := Smoothing(c, o)(Estimate(c, t, o));
            && AfterWindow(c, t, w.shares, w.work, w.elapsed) ==
               Tracked(Move(StepsOf(c, c.maxStep), t.difficulty, e), Some(e))
            && InLane(c, e)
  {
    var e := Smoothing(c, o)(Estimate(c, t, o));
    if t.estimate.None? {
      FreshSmooths(c, None, o);
      FreshSmooths(c, Some(Target(c, o)), o);
    }
    ErrorContracts(c, o, Estimate(c, t, o));
    RetargetIsMove(c, t.difficulty, e);
  }

  /** A client follows its estimate. */
  lemma {:induction false} ClientFollows(c: Config, t: Tracked, w: Window, o: real, n: nat)
    requires Valid(c) && Sane(c, t) && Observes(c, w, o)
    ensures After(c, t, w, n) ==
            Follow(StepsOf(c, c.maxStep), Smoothing(c, o), t.difficulty, Estimate(c, t, o), n)
    decreases n
  {
    if n > 0 {
      OneWindow(c, t, w, o);
      ClientFollows(c, AfterWindow(c, t, w.shares, w.work, w.elapsed), w, o, n - 1);
    }
  }

  // ----- How long a client takes

  /** Each use of `f` in the lane leaves no more of an error than `keep` does. */
  ghost predicate Shrinks(f: real -> real, error: real -> real, keep: real -> real, lane: real -> bool) {
    && (forall x {:trigger f(x)} :: lane(x) ==> lane(f(x)) && error(f(x)) <= keep(error(x)))
    && (forall a, b :: a <= b ==> keep(a) <= keep(b))
  }

  lemma {:induction false} RepeatRises(keep: real -> real, a: real, b: real, n: nat)
    requires (forall x, y :: x <= y ==> keep(x) <= keep(y)) && a <= b
    ensures Repeat(keep, a, n) <= Repeat(keep, b, n)
    decreases n
  {
    if n > 0 {
      RepeatRises(keep, keep(a), keep(b), n - 1);
    }
  }

  lemma {:induction false} Shrunken(f: real -> real, error: real -> real, keep: real -> real, lane: real -> bool,
      x: real, n: nat)
    requires Shrinks(f, error, keep, lane) && lane(x)
    ensures lane(Repeat(f, x, n)) && error(Repeat(f, x, n)) <= Repeat(keep, error(x), n)
    decreases n
  {
    if n > 0 {
      Shrunken(f, error, keep, lane, f(x), n - 1);
      RepeatRises(keep, error(f(x)), keep(error(x)), n - 1);
    }
  }

  function ErrorFrom(r: real): real -> real { e => Abs(e - r) }

  function LaneOf(c: Config): real -> bool { e => InLane(c, e) }

  lemma KeptRises(c: Config, a: real, b: real)
    requires Valid(c) && a <= b
    ensures Kept(c)(a) <= Kept(c)(b)
  {
    Product(b - a, 1.0 - c.alpha);
  }

  lemma SmoothingShrinksAt(c: Config, o: real, x: real)
    requires Valid(c) && LaneOf(c)(x)
    ensures LaneOf(c)(Smoothing(c, o)(x))
    ensures ErrorFrom(Target(c, o))(Smoothing(c, o)(x)) <= Kept(c)(ErrorFrom(Target(c, o))(x))
  {
    ErrorContracts(c, o, x);
  }

  lemma SmoothingShrinks(c: Config, o: real)
    requires Valid(c)
    ensures Shrinks(Smoothing(c, o), ErrorFrom(Target(c, o)), Kept(c), LaneOf(c))
  {
    var f, error, keep, lane := Smoothing(c, o), ErrorFrom(Target(c, o)), Kept(c), LaneOf(c);
    forall x | lane(x) ensures lane(f(x)) && error(f(x)) <= keep(error(x)) {
      SmoothingShrinksAt(c, o, x);
    }
    forall a, b | a <= b ensures keep(a) <= keep(b) {
      KeptRises(c, a, b);
    }
  }

  lemma ShrunkenBelow(f: real -> real, error: real -> real, keep: real -> real, lane: real -> bool,
      x: real, n: nat, bound: real)
    requires Shrinks(f, error, keep, lane) && lane(x) && Repeat(keep, error(x), n) <= bound
    ensures lane(Repeat(f, x, n)) && error(Repeat(f, x, n)) <= bound
  {
    Shrunken(f, error, keep, lane, x, n);
  }

  lemma KeptBelow(c: Config, error: real, n: nat, bound: real)
    requires error * Power(1.0 - c.alpha, n) <= bound
    ensures Repeat(Kept(c), error, n) <= bound
  {
    KeptPower(c, error, n);
  }

  /** The estimate's error after `n` windows, wherever the observation lies: no
      more than its first error times that power of what one window keeps. */
  lemma EstimateNears(c: Config, o: real, p: real, n: nat, error: real, bound: real)
    requires Valid(c) && InLane(c, p) && error == Abs(p - Target(c, o))
    requires error * Power(1.0 - c.alpha, n) <= bound
    ensures InLane(c, Repeat(Smoothing(c, o), p, n))
    ensures Abs(Repeat(Smoothing(c, o), p, n) - Target(c, o)) <= bound
  {
    SmoothingShrinks(c, o);
    KeptBelow(c, error, n, bound);
    ShrunkenBelow(Smoothing(c, o), ErrorFrom(Target(c, o)), Kept(c), LaneOf(c), p, n, bound);
  }

  /** Within the band already, or that many full steps cover the way. */
  ghost predicate InReach(c: Config, d: real, aim: real, slack: real, k: nat) {
    Within(c, d, aim, slack) || Covers(c, d, aim, k)
  }

  lemma InReachIs(c: Config, o: real, slack: real, d: real, k: nat)
    requires Valid(c) && InLane(c, d) && InReach(c, d, Target(c, o), slack, k)
    ensures Reachable(PursuitOf(c, o, slack), d, k)
  {
    var s, r := StepsOf(c, c.maxStep), Target(c, o);
    if Within(c, d, r, slack) {
    } else if d <= r {
      RepeatScaled(s.high, c.maxStep, d, k);
    } else {
      RepeatLow(c, c.maxStep, d, k);
      AtLeastOne(c.maxStepDown, k);
      NoMore(Repeat(s.low, d, k), r, Power(c.maxStepDown, k));
    }
  }

  lemma CalmArrives(c: Config, o: real, slack: real, d: real, e: real, k: nat, n: nat)
    requires Valid(c) && Steers(c) && slack > 0.0 && InLane(c, d) && Calm(c, e, Target(c, o), slack)
    requires InReach(c, d, Target(c, o), slack, k) && n >= k
    ensures Within(c, Follow(StepsOf(c, c.maxStep), Smoothing(c, o), d, e, n), Target(c, o), slack)
  {
    PursuitIsSound(c, o, slack);
    SteersBoth(c, o, slack);
    InReachIs(c, o, slack, d, k);
    Arrives(PursuitOf(c, o, slack), d, e, k, n);
  }

  /** The client's windows split in two. */
  lemma ClientSplits(c: Config, t: Tracked, w: Window, o: real, m: nat, n: nat)
    requires Valid(c) && Sane(c, t) && Observes(c, w, o) && m <= n
    ensures After(c, t, w, n) ==
            Follow(StepsOf(c, c.maxStep), Smoothing(c, o), After(c, t, w, m),
                   Repeat(Smoothing(c, o), Estimate(c, t, o), m), n - m)
  {
    ClientFollows(c, t, w, o, m);
    ClientFollows(c, t, w, o, n);
    FollowSplits(StepsOf(c, c.maxStep), Smoothing(c, o), t.difficulty, Estimate(c, t, o), m, n - m);
  }

  /** `m` windows make the client's estimate calm. */
  ghost predicate Forgets(c: Config, t: Tracked, o: real, slack: real, m: nat)
    requires Valid(c) && Sane(c, t)
  {
    Abs(Estimate(c, t, o) - Target(c, o)) * Power(1.0 - c.alpha, m) <= slack * c.minDifficulty
  }

  lemma ForgetsIsCalm(c: Config, t: Tracked, o: real, slack: real, m: nat)
    requires Valid(c) && Sane(c, t) && Forgets(c, t, o, slack, m)
    ensures Calm(c, Repeat(Smoothing(c, o), Estimate(c, t, o), m), Target(c, o), slack)
  {
    EstimateNears(c, o, Estimate(c, t, o), m, Abs(Estimate(c, t, o) - Target(c, o)), slack * c.minDifficulty);
  }

  /** A client whose windows all observe `o`, whatever estimate it holds, works
      within the tolerance and `slack` of `o` from window `m + k` on: `m` windows
      to forget the earlier rate, `k` full steps to cover the way from there. */
  lemma ClientComesWithin(c: Config, t: Tracked, w: Window, o: real, slack: real, m: nat, k: nat, n: nat)
    requires Valid(c) && Steers(c) && Sane(c, t) && Observes(c, w, o) && slack > 0.0
    requires Forgets(c, t, o, slack, m) && InReach(c, After(c, t, w, m), Target(c, o), slack, k) && n >= m + k
    ensures Within(c, After(c, t, w, n), Target(c, o), slack)
  {
    ClientSplits(c, t, w, o, m, n);
    ForgetsIsCalm(c, t, o, slack, m);
    CalmArrives(c, o, slack, After(c, t, w, m), Repeat(Smoothing(c, o), Estimate(c, t, o), m), k, n - m);
  }

  lemma Undone(k: real, inverse: real, p: real, q: real)
    requires k * inverse == 1.0 && p * q == 1.0
    ensures (inverse * p) * (k * q) == 1.0
  {
    assert (inverse * p) * (k * q) == (k * inverse) * (p * q);
  }

  lemma {:induction false} PowerInverse(k: real, inverse: real, n: nat)
    requires k * inverse == 1.0
    ensures Power(inverse, n) * Power(k, n) == 1.0
    decreases n
  {
    if n > 0 {
      PowerInverse(k, inverse, n - 1);
      Undone(k, inverse, Power(inverse, n - 1), Power(k, n - 1));
    }
  }

  lemma {:induction false} PowerIsPositive(k: real, n: nat)
    requires k > 0.0
    ensures Power(k, n) > 0.0
  {
    if n > 0 {
      PowerIsPositive(k, n - 1);
      Scaled(k, Power(k, n - 1), 0.0);
    }
  }

  lemma Cancelled(error: real, bound: real, p: real, q: real)
    requires error <= bound * p && q >= 0.0 && p * q == 1.0
    ensures error * q <= bound
  {
    Product(bound * p - error, q);
    Moved(bound, p, q);
  }

  lemma InverseAbove(k: real) returns (inverse: real)
    requires 0.0 < k < 1.0
    ensures k * inverse == 1.0 && inverse > 1.0
  {
    inverse := 1.0 / k;
    Divided(k, 1.0);
    Scaled(k, inverse, 1.0);
  }

  /** A factor below one falls below every bound. */
  lemma Falls(error: real, bound: real, k: real) returns (n: nat)
    requires error >= 0.0 && bound > 0.0 && 0.0 <= k < 1.0
    ensures error * Power(k, n) <= bound
  {
    if error == 0.0 {
      n := 0;
    } else if k == 0.0 {
      n := 1;
      assert Power(k, 1) == 0.0;
    } else {
      var inverse := InverseAbove(k);
      n := Reaches(bound, inverse, error);
      PowerInverse(k, inverse, n);
      PowerIsPositive(k, n);
      Cancelled(error, bound, Power(inverse, n), Power(k, n));
    }
  }

  lemma ForgetsEventually(c: Config, t: Tracked, o: real, slack: real) returns (m: nat)
    requires Valid(c) && Sane(c, t) && slack > 0.0
    ensures Forgets(c, t, o, slack, m)
  {
    Scaled(slack, c.minDifficulty, 0.0);
    m := Falls(Abs(Estimate(c, t, o) - Target(c, o)), slack * c.minDifficulty, 1.0 - c.alpha);
  }

  lemma InReachEventually(c: Config, d: real, aim: real, slack: real) returns (k: nat)
    requires Valid(c) && Steers(c) && InLane(c, d) && InLane(c, aim) && slack > 0.0
    ensures InReach(c, d, aim, slack, k)
  {
    k := 0;
    if !Within(c, d, aim, slack) {
      if d <= aim {
        if NarrowUp(c) {
          NarrowUpIsWithin(c, d, aim, slack);
        } else {
          k := Reaches(d, c.maxStep, aim);
        }
      } else if NarrowDown(c) {
        NarrowDownIsWithin(c, d, aim, slack);
      } else {
        k := Reaches(aim, c.maxStepDown, d);
      }
    }
  }

  /** From window `from` on the client works within the tolerance and `slack`. */
  ghost predicate StaysWithin(c: Config, t: Tracked, w: Window, o: real, slack: real, from: nat)
    requires Valid(c) && Sane(c, t) && Measured(w)
  {
    forall n: nat :: n >= from ==> Within(c, After(c, t, w, n), Target(c, o), slack)
  }

  lemma ComesWithin(c: Config, t: Tracked, w: Window, o: real, slack: real) returns (from: nat)
    requires Valid(c) && Steers(c) && Sane(c, t) && Observes(c, w, o) && slack > 0.0
    ensures StaysWithin(c, t, w, o, slack, from)
  {
    var m := ForgetsEventually(c, t, o, slack);
    var k := InReachEventually(c, After(c, t, w, m), Target(c, o), slack);
    from := m + k;
    forall n: nat | n >= from ensures Within(c, After(c, t, w, n), Target(c, o), slack) {
      ClientComesWithin(c, t, w, o, slack, m, k, n);
    }
  }

  // ----- Which configurations follow every rate

  ghost predicate Settles(c: Config, t: Tracked, w: Window, o: real, slack: real)
    requires Valid(c) && Sane(c, t) && Measured(w)
  {
    exists from: nat :: StaysWithin(c, t, w, o, slack, from)
  }

  ghost predicate EveryClientSettles(c: Config)
    requires Valid(c)
  {
    forall t: Tracked, w, o, slack :: Sane(c, t) && Observes(c, w, o) && slack > 0.0 ==> Settles(c, t, w, o, slack)
  }

  lemma ObservedOnTime(o: real, interval: real)
    requires o > 0.0 && interval > 0.0
    ensures Observed(o, interval, interval) == Some(o)
  {
    var q := o * interval / interval;
    Divided(interval, o * interval);
    Scaled(interval, q, o);
    Scaled(interval, o, q);
  }

  /** A window in which `o` is observed. */
  function WindowOf(c: Config, o: real): (w: Window)
    requires Valid(c) && o > 0.0
    ensures Observes(c, w, o)
  {
    ObservedOnTime(o, c.targetInterval);
    Window(1, o, c.targetInterval)
  }

  lemma StuckForever(c: Config, d: real, aim: real, n: nat)
    requires Valid(c) && InLane(c, d) && InLane(c, aim) && !CanReach(c, d, aim)
    ensures After(c, Tracked(d, None), WindowOf(c, aim), n) == d
  {
    var w := WindowOf(c, aim);
    EqualWindowsRetarget(c, Tracked(d, None), w.shares, w.work, w.elapsed, aim, n);
    RetargetsIterate(c, d, aim, n);
    CannotReachIsStuck(c, d, aim);
    StuckStays(StepsOf(c, c.maxStep), d, aim, n);
  }

  lemma SmallerSlack(d: real, far: real, tolerance: real) returns (slack: real)
    requires d > 0.0 && far > tolerance * d
    ensures slack > 0.0 && far > tolerance * d + slack * d
  {
    var spare := (far - tolerance * d) / 2.0;
    slack := spare / d;
    Positive(spare, d);
    Divided(d, spare);
  }

  lemma StuckOutside(c: Config, d: real, aim: real, slack: real, from: nat)
    requires Valid(c) && InLane(c, d) && InLane(c, aim) && !CanReach(c, d, aim) && !Within(c, d, aim, slack)
    ensures !StaysWithin(c, Tracked(d, None), WindowOf(c, aim), aim, slack, from)
  {
    StuckForever(c, d, aim, from);
  }

  lemma StuckNeverWithin(c: Config, d: real, aim: real, slack: real)
    requires Valid(c) && InLane(c, d) && InLane(c, aim) && !CanReach(c, d, aim) && !Within(c, d, aim, slack)
    ensures !Settles(c, Tracked(d, None), WindowOf(c, aim), aim, slack)
  {
    forall from: nat ensures !StaysWithin(c, Tracked(d, None), WindowOf(c, aim), aim, slack, from) {
      StuckOutside(c, d, aim, slack, from);
    }
  }

  lemma OutsideSome(c: Config, d: real, aim: real) returns (slack: real)
    requires d > 0.0 && Abs(aim - d) > c.tolerance * d
    ensures slack > 0.0 && !Within(c, d, aim, slack)
  {
    slack := SmallerSlack(d, Abs(aim - d), c.tolerance);
  }

  /** A client that stays where it is, too far off. */
  lemma StuckNeverSettles(c: Config, d: real, aim: real)
    requires Valid(c) && InLane(c, d) && InLane(c, aim) && !CanReach(c, d, aim) && Abs(aim - d) > c.tolerance * d
    ensures !EveryClientSettles(c)
  {
    var slack := OutsideSome(c, d, aim);
    StuckNeverWithin(c, d, aim, slack);
    assert Sane(c, Tracked(d, None)) && Observes(c, WindowOf(c, aim), aim);
  }

  lemma ShortUp(c: Config)
    requires Valid(c) && !ClimbsFully(c) && !NarrowUp(c)
    ensures !CanReach(c, c.minDifficulty, c.maxDifficulty)
  {
    Product(c.tolerance, c.minDifficulty);
    Scaled(c.minDifficulty, c.maxStep, 1.0 + c.tolerance);
  }

  lemma ShortDown(c: Config)
    requires Valid(c) && !DescendsFully(c) && !NarrowDown(c)
    ensures !CanReach(c, c.maxDifficulty, c.minDifficulty)
  {
    Product(c.tolerance, c.maxDifficulty);
    AtMostOne(c.maxStepDown);
    Over(c.maxDifficulty, c.maxStepDown);
    Scaled(c.maxDifficulty, 1.0 - c.tolerance, 1.0 / c.maxStepDown);
  }

  /** Every client of a configuration comes and stays within the tolerance of
      every steady rate, with whatever slack and whatever estimate it starts, if
      and only if in either direction a full step is worth taking or the lane is
      too narrow to need one. */
  lemma SettlesExactlyIfSteers(c: Config)
    requires Valid(c)
    ensures EveryClientSettles(c) <==> Steers(c)
  {
    var least, most := c.minDifficulty, c.maxDifficulty;
    if Steers(c) {
      forall t: Tracked, w, o, slack | Sane(c, t) && Observes(c, w, o) && slack > 0.0
        ensures Settles(c, t, w, o, slack)
      {
        var from := ComesWithin(c, t, w, o, slack);
      }
    } else {
      if !ClimbsFully(c) && !NarrowUp(c) {
        ShortUp(c);
        StuckNeverSettles(c, least, most);
      } else {
        ShortDown(c);
        StuckNeverSettles(c, most, least);
      }
    }
  }
}
