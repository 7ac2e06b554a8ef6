/** Where a client that follows its estimate ends: at rest within the tolerance
    when there is one, and without one on its goal only in passing, unless the
    estimate itself gets there. */
module Arrival {
  import opened Basics
  import opened Vardiff
  import opened Tracking

  // ----- Coming to rest

  /** A close client that moves once more is `tight`, and a tight one does not
      move again. */
  ghost predicate Rests(p: Pursuit, tight: real -> bool) {
    && (forall x, e :: p.close(x) && p.calm(e) && Move(p.steps, x, e) != x ==> tight(Move(p.steps, x, e)))
    && (forall x, e :: tight(x) && p.calm(e) ==> Move(p.steps, x, e) == x)
  }

  lemma {:induction false} TightStays(p: Pursuit, tight: real -> bool, x: real, e: real, n: nat)
    requires Sound(p) && Rests(p, tight) && tight(x) && p.calm(e)
    ensures Follow(p.steps, p.next, x, e, n) == x
    decreases n
  {
    if n > 0 {
      TightStays(p, tight, x, p.next(e), n - 1);
    }
  }

  ghost predicate Moves(p: Pursuit, x: real, e: real, n: nat) {
    Follow(p.steps, p.next, x, e, n + 1) != Follow(p.steps, p.next, x, e, n)
  }

  /** Nothing moves after window `from`. */
  ghost predicate AtRest(p: Pursuit, x: real, e: real, from: nat) {
    forall n: nat :: n >= from ==> Follow(p.steps, p.next, x, e, n) == Follow(p.steps, p.next, x, e, from)
  }

  lemma NextFollow(p: Pursuit, x: real, e: real, n: nat)
    ensures Follow(p.steps, p.next, x, e, n + 1) ==
            Move(p.steps, Follow(p.steps, p.next, x, e, n), p.next(Repeat(p.next, e, n)))
  {
    var y, f := Follow(p.steps, p.next, x, e, n), Repeat(p.next, e, n);
    FollowSplits(p.steps, p.next, x, e, n, 1);
    assert Follow(p.steps, p.next, y, f, 1) == Follow(p.steps, p.next, Move(p.steps, y, p.next(f)), p.next(f), 0);
  }

  lemma MovedIsTight(p: Pursuit, tight: real -> bool, x: real, e: real, m: nat)
    requires Sound(p) && Rests(p, tight) && p.close(x) && p.calm(e) && Moves(p, x, e, m)
    ensures tight(Follow(p.steps, p.next, x, e, m + 1))
  {
    StaysClose(p, x, e, m);
    StaysCalm(p, e, m);
    NextFollow(p, x, e, m);
    assert p.calm(p.next(Repeat(p.next, e, m)));
  }

  lemma TightRests(p: Pursuit, tight: real -> bool, x: real, e: real, m: nat)
    requires Sound(p) && Rests(p, tight) && p.calm(e) && tight(Follow(p.steps, p.next, x, e, m))
    ensures AtRest(p, x, e, m)
  {
    StaysCalm(p, e, m);
    forall n: nat | n >= m ensures Follow(p.steps, p.next, x, e, n) == Follow(p.steps, p.next, x, e, m) {
      FollowSplits(p.steps, p.next, x, e, m, n - m);
      TightStays(p, tight, Follow(p.steps, p.next, x, e, m), Repeat(p.next, e, m), n - m);
    }
  }

  lemma {:induction false} NeverMoved(p: Pursuit, x: real, e: real, n: nat)
    requires forall m: nat :: !Moves(p, x, e, m)
    ensures Follow(p.steps, p.next, x, e, n) == x
    decreases n
  {
    if n > 0 {
      NeverMoved(p, x, e, n - 1);
      assert !Moves(p, x, e, n - 1);
    }
  }

  lemma ComesToRest(p: Pursuit, tight: real -> bool, x: real, e: real) returns (from: nat)
    requires Sound(p) && Rests(p, tight) && p.close(x) && p.calm(e)
    ensures AtRest(p, x, e, from)
  {
    if m: nat :| Moves(p, x, e, m) {
      MovedIsTight(p, tight, x, e, m);
      TightRests(p, tight, x, e, m + 1);
      from := m + 1;
    } else {
      from := 0;
      forall n: nat ensures Follow(p.steps, p.next, x, e, n) == x {
        NeverMoved(p, x, e, n);
      }
    }
  }

  /** `y` is where a move from `x` toward `e` may lead: `least` is how far it is
      worth going. */
  predicate Led(least: real -> real, x: real, e: real, y: real) {
    (x <= y <= e || e <= y <= x) && (y != x ==> Abs(y - x) >= least(x))
  }

  /** Nearer to the goal than any move is worth, wherever a calm estimate is. */
  predicate Tight(p: Pursuit, width: real, x: real) {
    OnLane(p, x) && Abs(p.goal - x) <= 3.0 * width
  }

  /** Close and calm exceed what is worth a move by so little that four times it
      is not worth one. */
  ghost predicate Slight(p: Pursuit, least: real -> real, width: real) {
    && (forall x, e :: OnLane(p, x) ==> Led(least, x, e, Move(p.steps, x, e)))
    && (forall x :: p.close(x) ==> Abs(p.goal - x) <= least(x) + width)
    && (forall e :: p.calm(e) ==> Abs(e - p.goal) <= width)
    && (forall x :: OnLane(p, x) ==> 4.0 * width < least(x))
  }

  lemma LedOnce(p: Pursuit, least: real -> real, width: real, x: real, e: real)
    requires Sound(p) && Slight(p, least, width) && p.close(x) && p.calm(e) && Move(p.steps, x, e) != x
    ensures Tight(p, width, Move(p.steps, x, e))
  {
    assert Led(least, x, e, Move(p.steps, x, e));
  }

  lemma TightIsLedNowhere(p: Pursuit, least: real -> real, width: real, x: real, e: real)
    requires Sound(p) && Slight(p, least, width) && Tight(p, width, x) && p.calm(e)
    ensures Move(p.steps, x, e) == x
  {
    assert Led(least, x, e, Move(p.steps, x, e));
  }

  lemma SlightRests(p: Pursuit, least: real -> real, width: real)
    requires Sound(p) && Slight(p, least, width)
    ensures Rests(p, x => Tight(p, width, x))
  {
    forall x, e | p.close(x) && p.calm(e) && Move(p.steps, x, e) != x ensures Tight(p, width, Move(p.steps, x, e)) {
      LedOnce(p, least, width, x, e);
    }
    forall x, e | Tight(p, width, x) && p.calm(e) ensures Move(p.steps, x, e) == x {
      TightIsLedNowhere(p, least, width, x, e);
    }
  }

  /** The least change of a difficulty that is worth a retarget. */
  function Least(c: Config): real -> real { x => c.tolerance * x }

  lemma ChangeAtLeast(x: real, change: real, tolerance: real)
    requires x > 0.0 && change / x >= tolerance
    ensures change >= tolerance * x
  {
    Divided(x, change);
    Scaled(x, tolerance, change / x);
  }

  lemma WorthIsLeast(c: Config, x: real, y: real)
    requires Valid(c) && StepsOf(c, c.maxStep).worth(x, y)
    ensures Abs(y - x) >= Least(c)(x)
  {
    ChangeAtLeast(x, Abs(y - x), c.tolerance);
  }

  lemma MovedIsWorth(s: Steps, x: real, e: real)
    ensures Move(s, x, e) != x ==> s.worth(x, Move(s, x, e))
  {
  }

  lemma MoveLeads(c: Config, x: real, e: real)
    requires Valid(c) && x > 0.0
    ensures Led(Least(c), x, e, Move(StepsOf(c, c.maxStep), x, e))
  {
    var s := StepsOf(c, c.maxStep);
    StepsAreSensible(c, c.maxStep);
    MoveIsBetween(s, x, e);
    MovedIsWorth(s, x, e);
    if Move(s, x, e) != x {
      WorthIsLeast(c, x, Move(s, x, e));
    }
  }

  lemma SpareIsSlight(slack: real, x: real, most: real, width: real)
    requires slack >= 0.0 && x <= most && width == slack * most
    ensures slack * x <= width
  {
    Product(slack, most - x);
  }

  lemma SumIsSlight(tolerance: real, slack: real, x: real, spare: real, width: real)
    requires spare == slack * x && spare <= width
    ensures tolerance * x + slack * x <= tolerance * x + width
  {
  }

  lemma WorthMore(tolerance: real, lowest: real, x: real, width: real)
    requires tolerance >= 0.0 && lowest <= x && width < tolerance * lowest
    ensures width < tolerance * x
  {
    Product(tolerance, x - lowest);
  }

  lemma CloseIsSlight(c: Config, x: real, aim: real, slack: real, width: real)
    requires Valid(c) && slack > 0.0 && width == slack * c.maxDifficulty && InLane(c, x) && Within(c, x, aim, slack)
    ensures Abs(aim - x) <= Least(c)(x) + width
  {
    SpareIsSlight(slack, x, c.maxDifficulty, width);
    SumIsSlight(c.tolerance, slack, x, slack * x, width);
  }

  lemma CalmIsSlight(c: Config, e: real, aim: real, slack: real, width: real)
    requires Valid(c) && slack > 0.0 && width == slack * c.maxDifficulty && Calm(c, e, aim, slack)
    ensures Abs(e - aim) <= width
  {
    SpareIsSlight(slack, c.minDifficulty, c.maxDifficulty, width);
  }

  lemma LaneIsWorth(c: Config, x: real, width: real)
    requires Valid(c) && InLane(c, x) && width < Least(c)(c.minDifficulty)
    ensures width < Least(c)(x)
  {
    WorthMore(c.tolerance, c.minDifficulty, x, width);
  }

  lemma ClientIsSlight(c: Config, o: real, slack: real, width: real, four: real)
    requires Valid(c) && slack > 0.0 && width == slack * c.maxDifficulty
    requires four == 4.0 * width && four < Least(c)(c.minDifficulty)
    ensures Slight(PursuitOf(c, o, slack), Least(c), width)
  {
    var p, least := PursuitOf(c, o, slack), Least(c);
    forall x, e | OnLane(p, x) ensures Led(least, x, e, Move(p.steps, x, e)) {
      MoveLeads(c, x, e);
    }
    forall x | p.close(x) ensures Abs(p.goal - x) <= least(x) + width {
      CloseIsSlight(c, x, p.goal, slack, width);
    }
    forall e | p.calm(e) ensures Abs(e - p.goal) <= width {
      CalmIsSlight(c, e, p.goal, slack, width);
    }
    forall x | OnLane(p, x) ensures four < least(x) {
      LaneIsWorth(c, x, four);
    }
  }

  /** A slack so small that four times it, over the whole lane, is not worth a
      retarget. */
  lemma LittleSlack(c: Config) returns (slack: real, width: real)
    requires Valid(c) && c.tolerance > 0.0
    ensures slack > 0.0 && width == slack * c.maxDifficulty && 4.0 * width < c.tolerance * c.minDifficulty
  {
    Scaled(c.minDifficulty, c.tolerance, 0.0);
    width := c.tolerance * c.minDifficulty / 8.0;
    slack := width / c.maxDifficulty;
    Positive(width, c.maxDifficulty);
    Divided(c.maxDifficulty, width);
  }

  lemma SlightSlack(c: Config, o: real) returns (slack: real, width: real)
    requires Valid(c) && c.tolerance > 0.0
    ensures slack > 0.0 && Slight(PursuitOf(c, o, slack), Least(c), width)
  {
    slack, width := LittleSlack(c);
    ClientIsSlight(c, o, slack, width, 4.0 * width);
  }

  /** The client does not move after window `from`. */
  ghost predicate ClientAtRest(c: Config, t: Tracked, w: Window, from: nat)
    requires Valid(c) && Sane(c, t) && Measured(w)
  {
    forall n: nat :: n >= from ==> After(c, t, w, n) == After(c, t, w, from)
  }

  lemma FollowRests(c: Config, o: real, slack: real, width: real, d: real, e: real) returns (from: nat)
    requires Valid(c) && slack > 0.0 && Slight(PursuitOf(c, o, slack), Least(c), width)
    requires InLane(c, d) && Within(c, d, Target(c, o), slack) && Calm(c, e, Target(c, o), slack)
    ensures AtRest(PursuitOf(c, o, slack), d, e, from)
  {
    var p := PursuitOf(c, o, slack);
    PursuitIsSound(c, o, slack);
    SlightRests(p, Least(c), width);
    from := ComesToRest(p, x => Tight(p, width, x), d, e);
  }

  lemma RestCarries(c: Config, t: Tracked, w: Window, o: real, slack: real, m: nat, e: real, from: nat)
    requires Valid(c) && Sane(c, t) && Observes(c, w, o) && e == Repeat(Smoothing(c, o), Estimate(c, t, o), m)
    requires AtRest(PursuitOf(c, o, slack), After(c, t, w, m), e, from)
    ensures ClientAtRest(c, t, w, m + from)
  {
    var p, d := PursuitOf(c, o, slack), After(c, t, w, m);
    ClientSplits(c, t, w, o, m, m + from);
    forall n: nat | n >= m + from ensures After(c, t, w, n) == After(c, t, w, m + from) {
      ClientSplits(c, t, w, o, m, n);
      assert Follow(p.steps, p.next, d, e, n - m) == Follow(p.steps, p.next, d, e, from);
    }
  }

  lemma LaterIsCalm(c: Config, o: real, slack: real, p: real, m: nat, k: nat)
    requires Valid(c) && slack > 0.0 && Calm(c, Repeat(Smoothing(c, o), p, m), Target(c, o), slack)
    ensures Calm(c, Repeat(Smoothing(c, o), p, m + k), Target(c, o), slack)
  {
    PursuitIsSound(c, o, slack);
    StaysCalm(PursuitOf(c, o, slack), Repeat(Smoothing(c, o), p, m), k);
    RepeatSplits(Smoothing(c, o), p, m, k);
  }

  lemma {:induction false} RepeatSplits(f: real -> real, x: real, m: nat, n: nat)
    ensures Repeat(f, x, m + n) == Repeat(f, Repeat(f, x, m), n)
    decreases m
  {
    if m > 0 {
      RepeatSplits(f, f(x), m - 1, n);
    }
  }

  lemma ClientStops(c: Config, t: Tracked, w: Window, o: real) returns (from: nat)
    requires Valid(c) && Steers(c) && c.tolerance > 0.0 && Sane(c, t) && Observes(c, w, o)
    ensures ClientAtRest(c, t, w, from)
  {
    var slack, width := SlightSlack(c, o);
    var m := ForgetsEventually(c, t, o, slack);
    var k := InReachEventually(c, After(c, t, w, m), Target(c, o), slack);
    var e := Repeat(Smoothing(c, o), Estimate(c, t, o), m + k);
    ClientComesWithin(c, t, w, o, slack, m, k, m + k);
    ForgetsIsCalm(c, t, o, slack, m);
    LaterIsCalm(c, o, slack, Estimate(c, t, o), m, k);
    var rest := FollowRests(c, o, slack, width, After(c, t, w, m + k), e);
    RestCarries(c, t, w, o, slack, m + k, e, rest);
    from := m + k + rest;
  }

  lemma RestsWithin(c: Config, t: Tracked, w: Window, o: real, from: nat, slack: real)
    requires Valid(c) && Steers(c) && Sane(c, t) && Observes(c, w, o) && slack > 0.0 && ClientAtRest(c, t, w, from)
    ensures Within(c, After(c, t, w, from), Target(c, o), slack)
  {
    var later := ComesWithin(c, t, w, o, slack);
    assert After(c, t, w, from + later) == After(c, t, w, from);
  }

  lemma WithinAll(c: Config, d: real, aim: real)
    requires d > 0.0 && forall slack :: slack > 0.0 ==> Within(c, d, aim, slack)
    ensures Within(c, d, aim, 0.0)
  {
    if Abs(aim - d) > c.tolerance * d {
      var slack := SmallerSlack(d, Abs(aim - d), c.tolerance);
      assert Within(c, d, aim, slack);
    }
  }

  /** With a tolerance above zero every client of a configuration that steers
      stops, whatever estimate it held, within the tolerance itself. */
  lemma ClientRests(c: Config, t: Tracked, w: Window, o: real) returns (from: nat)
    requires Valid(c) && Steers(c) && c.tolerance > 0.0 && Sane(c, t) && Observes(c, w, o)
    ensures ClientAtRest(c, t, w, from) && Within(c, After(c, t, w, from), Target(c, o), 0.0)
  {
    from := ClientStops(c, t, w, o);
    forall slack | slack > 0.0 ensures Within(c, After(c, t, w, from), Target(c, o), slack) {
      RestsWithin(c, t, w, o, from, slack);
    }
    WithinAll(c, After(c, t, w, from), Target(c, o));
  }

  // ----- Without a tolerance

  /** Every step is worth taking, and none leads to zero. */
  ghost predicate Free(s: Steps) {
    && Sensible(s)
    && (forall x, y :: x > 0.0 && x != y ==> s.worth(x, y))
    && (forall x :: x > 0.0 ==> s.low(x) > 0.0)
  }

  lemma FreeMove(s: Steps, x: real, e: real)
    requires Free(s) && x > 0.0
    ensures Move(s, x, e) == Bounded(s, x, e)
  {
  }

  /** Estimates on one side of the goal that stay there. */
  ghost predicate Beside(next: real -> real, side: real -> bool) {
    forall e {:trigger next(e)} :: side(e) ==> side(next(e))
  }

  lemma {:induction false} RepeatFalls(s: Steps, x: real, k: nat)
    requires Free(s) && x > 0.0
    ensures 0.0 < Repeat(s.low, x, k) <= x
    decreases k
  {
    if k > 0 {
      RepeatFalls(s, s.low(x), k - 1);
    }
  }

  lemma {:induction false} RepeatClimbs(s: Steps, x: real, k: nat)
    requires Free(s) && x > 0.0
    ensures x <= Repeat(s.high, x, k)
    decreases k
  {
    if k > 0 {
      RepeatClimbs(s, s.high(x), k - 1);
    }
  }

  ghost predicate Below(side: real -> bool, goal: real) { forall e :: side(e) ==> e < goal }

  ghost predicate Above(side: real -> bool, goal: real) { forall e :: side(e) ==> goal < e }

  /** Full steps down that land on the goal pass it, to an estimate below. */
  lemma {:induction false} PassesDown(s: Steps, next: real -> real, side: real -> bool, goal: real,
      x: real, e: real, k: nat)
    requires Free(s) && Beside(next, side) && Below(side, goal) && side(e)
    requires x > 0.0 && Repeat(s.low, x, k) == goal
    ensures Follow(s, next, x, e, k) == goal
    decreases k
  {
    if k > 0 {
      RepeatFalls(s, s.low(x), k - 1);
      FreeMove(s, x, next(e));
      assert side(next(e));
      PassesDown(s, next, side, goal, s.low(x), next(e), k - 1);
    }
  }

  lemma {:induction false} PassesUp(s: Steps, next: real -> real, side: real -> bool, goal: real,
      x: real, e: real, k: nat)
    requires Free(s) && Beside(next, side) && Above(side, goal) && side(e)
    requires x > 0.0 && Repeat(s.high, x, k) == goal
    ensures Follow(s, next, x, e, k) == goal
    decreases k
  {
    if k > 0 {
      RepeatClimbs(s, s.high(x), k - 1);
      FreeMove(s, x, next(e));
      assert side(next(e));
      PassesUp(s, next, side, goal, s.high(x), next(e), k - 1);
    }
  }

  /** Beside estimates below, nothing but full steps down lands on the goal. */
  lemma {:induction false} LandsFromAbove(s: Steps, next: real -> real, side: real -> bool, goal: real,
      x: real, e: real, n: nat) returns (k: nat)
    requires Free(s) && Beside(next, side) && Below(side, goal) && side(e) && goal > 0.0
    requires x > 0.0 && (forall f :: side(f) ==> f > 0.0) && Follow(s, next, x, e, n) == goal
    ensures Repeat(s.low, x, k) == goal
    decreases n
  {
    k := 0;
    if n > 0 {
      var y := Move(s, x, next(e));
      FreeMove(s, x, next(e));
      MoveIsBetween(s, x, next(e));
      assert side(next(e));
      k := LandsFromAbove(s, next, side, goal, y, next(e), n - 1);
      RepeatFalls(s, y, k);
      assert y == s.low(x);
      k := k + 1;
    }
  }

  lemma {:induction false} LandsFromBelow(s: Steps, next: real -> real, side: real -> bool, goal: real,
      x: real, e: real, n: nat) returns (k: nat)
    requires Free(s) && Beside(next, side) && Above(side, goal) && side(e) && goal > 0.0
    requires x > 0.0 && Follow(s, next, x, e, n) == goal
    ensures Repeat(s.high, x, k) == goal
    decreases n
  {
    k := 0;
    if n > 0 {
      var y := Move(s, x, next(e));
      FreeMove(s, x, next(e));
      MoveIsBetween(s, x, next(e));
      assert side(next(e));
      k := LandsFromBelow(s, next, side, goal, y, next(e), n - 1);
      RepeatClimbs(s, y, k);
      assert y == s.high(x);
      k := k + 1;
    }
  }

  /** No tolerance, and full steps both ways. */
  predicate Exact(c: Config)
    requires Valid(c)
  {
    c.tolerance == 0.0 && ClimbsFully(c) && DescendsFully(c)
  }

  lemma ExactIsFree(c: Config)
    requires Valid(c) && Exact(c)
    ensures Free(StepsOf(c, c.maxStep))
  {
    var s := StepsOf(c, c.maxStep);
    StepsAreSensible(c, c.maxStep);
    forall x, y | x > 0.0 && x != y ensures s.worth(x, y) {
      RatioAtLeast(x, Abs(y - x), 0.0);
    }
    forall x | x > 0.0 ensures s.low(x) > 0.0 {
      Positive(x, c.maxStepDown);
    }
  }

  function SideBelow(c: Config, o: real): real -> bool { e => InLane(c, e) && e < o }

  function SideAbove(c: Config, o: real): real -> bool { e => InLane(c, e) && o < e }

  lemma SameSide(next: real, o: real, e: real, k: real)
    requires next - o == (e - o) * k && k > 0.0
    ensures (e < o ==> next < o) && (o < e ==> o < next)
  {
    Scaled(k, e - o, 0.0);
    Scaled(k, 0.0, e - o);
  }

  /** Smoothing keeps a stale estimate on its side. */
  lemma StaysBeside(c: Config, o: real, e: real)
    requires Valid(c) && InLane(c, o) && InLane(c, e) && c.alpha < 1.0
    ensures e < o ==> SideBelow(c, o)(Smoothing(c, o)(e))
    ensures o < e ==> SideAbove(c, o)(Smoothing(c, o)(e))
  {
    ErrorShrinks(c, o, e);
    SameSide(Smooth(c, o, Some(e)), o, e, 1.0 - c.alpha);
  }

  lemma SidesStay(c: Config, o: real)
    requires Valid(c) && InLane(c, o) && c.alpha < 1.0
    ensures Beside(Smoothing(c, o), SideBelow(c, o)) && Beside(Smoothing(c, o), SideAbove(c, o))
  {
    var next, below, above := Smoothing(c, o), SideBelow(c, o), SideAbove(c, o);
    forall e | below(e) ensures below(next(e)) {
      StaysBeside(c, o, e);
    }
    forall e | above(e) ensures above(next(e)) {
      StaysBeside(c, o, e);
    }
  }

  /** From a difficulty `d`, full steps away from the estimate's side land on `o`. */
  ghost predicate Lands(c: Config, d: real, p: real, o: real, k: nat)
    requires Valid(c)
  {
    var s := StepsOf(c, c.maxStep);
    if p < o then Repeat(s.low, d, k) == o else Repeat(s.high, d, k) == o
  }

  lemma LandsAt(c: Config, d: real, p: real, o: real, k: nat)
    requires Valid(c) && Exact(c) && InLane(c, d) && InLane(c, p) && InLane(c, o) && p != o && c.alpha < 1.0
    requires Lands(c, d, p, o, k)
    ensures Follow(StepsOf(c, c.maxStep), Smoothing(c, o), d, p, k) == o
  {
    var s, next := StepsOf(c, c.maxStep), Smoothing(c, o);
    ExactIsFree(c);
    SidesStay(c, o);
    if p < o {
      PassesDown(s, next, SideBelow(c, o), o, d, p, k);
    } else {
      PassesUp(s, next, SideAbove(c, o), o, d, p, k);
    }
  }

  lemma OnlyLands(c: Config, d: real, p: real, o: real, n: nat) returns (k: nat)
    requires Valid(c) && Exact(c) && InLane(c, d) && InLane(c, p) && InLane(c, o) && p != o && c.alpha < 1.0
    requires Follow(StepsOf(c, c.maxStep), Smoothing(c, o), d, p, n) == o
    ensures Lands(c, d, p, o, k)
  {
    var s, next := StepsOf(c, c.maxStep), Smoothing(c, o);
    ExactIsFree(c);
    SidesStay(c, o);
    if p < o {
      k := LandsFromAbove(s, next, SideBelow(c, o), o, d, p, n);
    } else {
      k := LandsFromBelow(s, next, SideAbove(c, o), o, d, p, n);
    }
  }

  /** The client stands a whole number of full steps beyond `o`, away from its
      estimate: at `o` already, for none. */
  ghost predicate Passes(c: Config, d: real, p: real, o: real) {
    exists k: nat :: StepsBeyond(c, d, p, o, k)
  }

  ghost predicate StepsBeyond(c: Config, d: real, p: real, o: real, k: nat) {
    if p < o then d == o * Power(c.maxStepDown, k) else d * Power(c.maxStep, k) == o
  }

  lemma Same(x: real, y: real, p: real)
    requires p >= 1.0 && x * p == y * p
    ensures x == y
  {
    NoMore(x, y, p);
    NoMore(y, x, p);
  }

  lemma LandsDownIs(c: Config, d: real, o: real, k: nat)
    requires Valid(c)
    ensures Repeat(StepsOf(c, c.maxStep).low, d, k) == o <==> d == o * Power(c.maxStepDown, k)
  {
    var low, power := Repeat(StepsOf(c, c.maxStep).low, d, k), Power(c.maxStepDown, k);
    RepeatLow(c, c.maxStep, d, k);
    AtLeastOne(c.maxStepDown, k);
    if d == o * power {
      Same(low, o, power);
    }
  }

  lemma LandsUpIs(c: Config, d: real, o: real, k: nat)
    requires Valid(c)
    ensures Repeat(StepsOf(c, c.maxStep).high, d, k) == o <==> d * Power(c.maxStep, k) == o
  {
    RepeatScaled(StepsOf(c, c.maxStep).high, c.maxStep, d, k);
  }

  lemma LandsIs(c: Config, d: real, p: real, o: real, k: nat)
    requires Valid(c)
    ensures Lands(c, d, p, o, k) <==> StepsBeyond(c, d, p, o, k)
  {
    if p < o {
      LandsDownIs(c, d, o, k);
    } else {
      LandsUpIs(c, d, o, k);
    }
  }

  /** Some window leaves the client exactly at what its windows observe. */
  ghost predicate Reached(c: Config, t: Tracked, w: Window, o: real)
    requires Valid(c) && Sane(c, t) && Measured(w)
  {
    exists n: nat :: After(c, t, w, n) == Target(c, o)
  }

  lemma StaleReaches(c: Config, t: Tracked, w: Window, o: real)
    requires Valid(c) && Exact(c) && Sane(c, t) && Observes(c, w, o) && InLane(c, o) && !Fresh(c, t.estimate, o)
    ensures Reached(c, t, w, o) <==> Passes(c, t.difficulty, t.estimate.value, o)
  {
    var d, p := t.difficulty, t.estimate.value;
    if Reached(c, t, w, o) {
      var n: nat :| After(c, t, w, n) == Target(c, o);
      ClientFollows(c, t, w, o, n);
      var k := OnlyLands(c, d, p, o, n);
      LandsIs(c, d, p, o, k);
    }
    if Passes(c, d, p, o) {
      var k: nat :| StepsBeyond(c, d, p, o, k);
      LandsIs(c, d, p, o, k);
      LandsAt(c, d, p, o, k);
      ClientFollows(c, t, w, o, k);
    }
  }

  lemma NearIsThere(c: Config, d: real, aim: real)
    requires c.tolerance == 0.0 && d > 0.0 && Near(c, d, aim)
    ensures d == aim
  {
    RatioAtLeast(d, Abs(aim - d), 0.0);
  }

  lemma FreshReaches(c: Config, t: Tracked, w: Window, o: real)
    requires Valid(c) && Exact(c) && Sane(c, t) && Observes(c, w, o) && Fresh(c, t.estimate, o)
    ensures Reached(c, t, w, o)
  {
    ClientConvergesExactly(c, t, w.shares, w.work, w.elapsed, o);
    var n: nat :| ClientNear(c, t, w.shares, w.work, w.elapsed, o, n);
    NearIsThere(c, After(c, t, w, n), Target(c, o));
  }

  // ----- A rate beyond the lane

  /** Smoothed toward what is above the lane an estimate does not fall, nor the
      other way round. */
  lemma MixedTowards(o: real, e: real, alpha: real, next: real)
    requires alpha >= 0.0 && next - e == (o - e) * alpha
    ensures (o >= e ==> next >= e) && (o <= e ==> next <= e)
  {
    if o >= e {
      Product(o - e, alpha);
    } else {
      Product(e - o, alpha);
      assert (o - e) * alpha == -((e - o) * alpha);
    }
  }

  lemma MixedFrom(o: real, e: real, alpha: real)
    ensures o * alpha + e * (1.0 - alpha) - e == (o - e) * alpha
  {
  }

  lemma ClampBeyond(next: real, o: real, e: real, least: real, most: real)
    requires least <= e <= most && !(least <= o <= most) && (o >= e ==> next >= e) && (o <= e ==> next <= e)
    ensures Clamp(next, least, most) in {Clamp(o, least, most), next}
  {
  }

  /** Either the estimate is at the lane's end, or all of its distance to `o` is
      kept but for the factor. */
  lemma BeyondOnce(c: Config, o: real, e: real)
    requires Valid(c) && InLane(c, e) && !InLane(c, o)
    ensures Smooth(c, o, Some(e)) == Target(c, o) || Abs(Smooth(c, o, Some(e)) - o) == Abs(e - o) * (1.0 - c.alpha)
  {
    var next := o * c.alpha + e * (1.0 - c.alpha);
    MixedFrom(o, e, c.alpha);
    MixedTowards(o, e, c.alpha, next);
    ClampBeyond(next, o, e, c.minDifficulty, c.maxDifficulty);
    MixedError(c, o, e);
    SignedScale(e - o, 1.0 - c.alpha);
  }

  lemma EndStays(c: Config, o: real)
    requires Valid(c)
    ensures Smoothing(c, o)(Target(c, o)) == Target(c, o)
  {
    FreshSmooths(c, Some(Target(c, o)), o);
  }

  /** Each use of `f` reaches `end` or leaves exactly what `keep` does. */
  ghost predicate EndsOrKeeps(f: real -> real, error: real -> real, keep: real -> real, lane: real -> bool, end: real) {
    && (forall x {:trigger f(x)} :: lane(x) ==> lane(f(x)) && (f(x) == end || error(f(x)) == keep(error(x))))
    && f(end) == end && lane(end)
  }

  lemma {:induction false} Ended(f: real -> real, end: real, n: nat)
    requires f(end) == end
    ensures Repeat(f, end, n) == end
    decreases n
  {
    if n > 0 {
      Ended(f, end, n - 1);
    }
  }

  lemma {:induction false} EndedOrKept(f: real -> real, error: real -> real, keep: real -> real, lane: real -> bool,
      end: real, x: real, n: nat)
    requires EndsOrKeeps(f, error, keep, lane, end) && lane(x)
    ensures lane(Repeat(f, x, n)) && (Repeat(f, x, n) == end || error(Repeat(f, x, n)) == Repeat(keep, error(x), n))
    decreases n
  {
    if n > 0 {
      if f(x) == end {
        Ended(f, end, n - 1);
      } else {
        EndedOrKept(f, error, keep, lane, end, f(x), n - 1);
      }
    }
  }

  lemma SmoothingEndsAt(c: Config, o: real, x: real)
    requires Valid(c) && !InLane(c, o) && LaneOf(c)(x)
    ensures LaneOf(c)(Smoothing(c, o)(x))
    ensures Smoothing(c, o)(x) == Target(c, o) || ErrorFrom(o)(Smoothing(c, o)(x)) == Kept(c)(ErrorFrom(o)(x))
  {
    BeyondOnce(c, o, x);
  }

  lemma SmoothingEnds(c: Config, o: real)
    requires Valid(c) && !InLane(c, o)
    ensures EndsOrKeeps(Smoothing(c, o), ErrorFrom(o), Kept(c), LaneOf(c), Target(c, o))
  {
    var f, error, keep, lane := Smoothing(c, o), ErrorFrom(o), Kept(c), LaneOf(c);
    EndStays(c, o);
    forall x | lane(x) ensures lane(f(x)) && (f(x) == Target(c, o) || error(f(x)) == keep(error(x))) {
      SmoothingEndsAt(c, o, x);
    }
  }

  lemma NoNearer(c: Config, o: real, e: real)
    requires Valid(c) && InLane(c, e) && !InLane(c, o)
    ensures Abs(e - o) >= Abs(Target(c, o) - o) > 0.0
  {
  }

  /** Under a rate beyond the lane the estimate reaches the lane's end. */
  lemma EndReached(c: Config, o: real, p: real) returns (m: nat)
    requires Valid(c) && InLane(c, p) && !InLane(c, o)
    ensures Repeat(Smoothing(c, o), p, m) == Target(c, o)
  {
    var error, half := ErrorFrom(o)(p), Abs(Target(c, o) - o) / 2.0;
    NoNearer(c, o, p);
    m := Falls(error, half, 1.0 - c.alpha);
    KeptBelow(c, error, m, half);
    SmoothingEnds(c, o);
    EndedOrKept(Smoothing(c, o), ErrorFrom(o), Kept(c), LaneOf(c), Target(c, o), p, m);
    if Repeat(Smoothing(c, o), p, m) != Target(c, o) {
      NoNearer(c, o, Repeat(Smoothing(c, o), p, m));
    }
  }

  lemma BeyondReaches(c: Config, t: Tracked, w: Window, o: real)
    requires Valid(c) && Exact(c) && Sane(c, t) && Observes(c, w, o) && !InLane(c, o)
    ensures Reached(c, t, w, o)
  {
    var r := Target(c, o);
    var m := EndReached(c, o, Estimate(c, t, o));
    var u := Tracked(After(c, t, w, m), Some(r));
    FreshReaches(c, u, w, o);
    var n: nat :| After(c, u, w, n) == r;
    ClientSplits(c, t, w, o, m, m + n);
    ClientFollows(c, u, w, o, n);
    assert After(c, t, w, m + n) == r;
  }

  /** Without a tolerance a client follows its estimate, and is ever exactly at
      what its windows observe if and only if its estimate holds nothing of an
      earlier rate, the observation is beyond the lane, or the client stands a
      whole number of full steps beyond it on the other side. */
  lemma ReachedExactly(c: Config, t: Tracked, w: Window, o: real)
    requires Valid(c) && Exact(c) && Sane(c, t) && Observes(c, w, o)
    ensures Reached(c, t, w, o) <==>
            Fresh(c, t.estimate, o) || !InLane(c, o) || Passes(c, t.difficulty, t.estimate.value, o)
  {
    if Fresh(c, t.estimate, o) {
      FreshReaches(c, t, w, o);
    } else if !InLane(c, o) {
      BeyondReaches(c, t, w, o);
    } else {
      StaleReaches(c, t, w, o);
    }
  }

  // ----- Two clients that the steady case does not cover

  const LATE := Config(10.0, 1.0, 100.0, 4.0, 4.0, 0.5, 0.25, true, 64.0)
  const STALE := Tracked(1.0, Some(1.0))

  /** One full step covers the way to what is observed, but the estimate of the
      earlier rate holds the client back. */
  lemma StaleIsLate()
    ensures Valid(LATE) && ClimbsFully(LATE) && DescendsFully(LATE) && Sane(LATE, STALE)
    ensures Covers(LATE, STALE.difficulty, 4.0, 1)
    ensures After(LATE, STALE, WindowOf(LATE, 4.0), 1) == 2.5 && !Near(LATE, 2.5, 4.0)
  {
    assert Power(4.0, 1) == 4.0 * Power(4.0, 0);
    OneWindow(LATE, STALE, WindowOf(LATE, 4.0), 4.0);
  }

  const STRICT := LATE.(tolerance := 0.0)

  /** Without a tolerance it never comes near at all. */
  lemma StaleNeverArrives(n: nat)
    ensures Valid(STRICT) && Exact(STRICT) && Sane(STRICT, STALE) && CanReach(STRICT, STALE.difficulty, 4.0)
    ensures !Near(STRICT, After(STRICT, STALE, WindowOf(STRICT, 4.0), n), 4.0)
  {
    var w := WindowOf(STRICT, 4.0);
    forall k: nat ensures !StepsBeyond(STRICT, 1.0, 1.0, 4.0, k) {
      AtLeastOne(4.0, k);
    }
    ReachedExactly(STRICT, STALE, w, 4.0);
    if Near(STRICT, After(STRICT, STALE, w, n), 4.0) {
      NearIsThere(STRICT, After(STRICT, STALE, w, n), 4.0);
    }
  }
}
