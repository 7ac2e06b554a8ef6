/** The ckpool supervisor: one loop that polls a child process, forwards
    signals to it, and stops it when the watchdog has failed for too long.
    Everything the loop observes (clock, polls, checks, signals) is a trace. */
module Supervisor {
  import opened Basics

  /** One watchdog check: passed, failed as it may, or broke the supervisor. */
  datatype Check = Passed | Failed | Broke

  /** A signal caught by the supervisor, and what its handler's poll saw. */
  datatype Delivery = Delivery(signum: int, at: real, polled: Option<int>)

  /** One round of the loop: the poll, the signals caught until the round
      looks at them, the clock, the check, and the wait that ends the round. */
  datatype Round = Round(polled: Option<int>, signals: seq<Delivery>, now: real, check: Check, waited: Option<int>)

  /** How a child that is being stopped ends: seen before the signal, within
      the grace period, or with this code when killed. */
  datatype Ending = Ending(polled: Option<int>, waited: Option<int>, killed: int)

  datatype Outcome = Running | Returned(code: int) | Raised

  const GRACE := 10.0
  const SIGTERM := 15

  function ExitStatus(code: int): int {
    if code >= 0 then code else 128 - code
  }

  // ----- What a run should do

  function First<T>(x: Option<T>, y: Option<T>): Option<T> {
    if x.Some? then x else y
  }

  /** The first exit code the handlers of these signals saw. */
  function SeenByHandlers(signals: seq<Delivery>, n: nat): Option<int>
    requires n <= |signals|
  {
    if n == 0 then None else First(SeenByHandlers(signals, n - 1), signals[n - 1].polled)
  }

  /** The child's exit code as far as it was seen before round `i`. */
  function SeenBefore(rounds: seq<Round>, i: nat): Option<int>
    requires i <= |rounds|
  {
    if i == 0 then None else
    var r := rounds[i - 1];
    First(First(First(SeenBefore(rounds, i - 1), r.polled), SeenByHandlers(r.signals, |r.signals|)), r.waited)
  }

  /** What round `i`'s own poll returns. */
  function PolledAt(rounds: seq<Round>, i: nat): Option<int>
    requires i < |rounds|
  {
    First(SeenBefore(rounds, i), rounds[i].polled)
  }

  /** The first signal caught in rounds before `i`. */
  function Caught(rounds: seq<Round>, i: nat): Option<Delivery>
    requires i <= |rounds|
  {
    if i == 0 then None else
    var signals := rounds[i - 1].signals;
    First(Caught(rounds, i - 1), if signals == [] then None else Some(signals[0]))
  }

  predicate AllFailed(rounds: seq<Round>, from: nat, i: nat)
    requires i < |rounds|
  {
    forall k :: from <= k <= i ==> rounds[k].check == Failed
  }

  /** An unbroken stretch of failed checks ends at `i` and spans `limit`. */
  predicate Persisted(rounds: seq<Round>, i: nat, limit: real)
    requires i < |rounds|
  {
    exists from: nat :: from <= i && AllFailed(rounds, from, i) && rounds[i].now - rounds[from].now >= limit
  }

  /** What round `i` decides, in a run that has reached it. */
  function Decided(rounds: seq<Round>, i: nat, limit: real): Outcome
    requires i < |rounds|
  {
    var caught := Caught(rounds, i + 1);
    match PolledAt(rounds, i)
    case Some(code) => Returned(if caught.Some? then 128 + caught.value.signum else ExitStatus(code))
    case None =>
      if caught.Some? then Running else
      match rounds[i].check
      case Passed => Running
      case Broke => Raised
      case Failed => if Persisted(rounds, i, limit) then Returned(1) else Running
  }

  /** The child is killed in a round past the grace period of the first signal. */
  predicate Overdue(rounds: seq<Round>, i: nat)
    requires i < |rounds|
  {
    var caught := Caught(rounds, i + 1);
    PolledAt(rounds, i) == None && caught.Some? && rounds[i].now >= caught.value.at + GRACE
  }

  /** The clock does not go back. */
  predicate Monotone(rounds: seq<Round>) {
    forall i, k :: 0 <= i <= k < |rounds| ==> rounds[i].now <= rounds[k].now
  }

  /** No round before `i` decides an end. */
  predicate Undecided(rounds: seq<Round>, i: nat, limit: real)
    requires i <= |rounds|
  {
    forall k: nat :: k < i ==> Decided(rounds, k, limit) == Running
  }

  // ----- The supervisor

  class Child {
    var returncode: Option<int>
    var sent: seq<int>
    var killed: bool

    constructor ()
      ensures returncode == None && sent == [] && !killed
    {
      returncode, sent, killed := None, [], false;
    }

    /** A poll reaps a child that has ended; what it saw once it keeps. */
    method Poll(seen: Option<int>) returns (code: Option<int>)
      modifies this`returncode
      ensures code == returncode == First(old(returncode), seen)
    {
      if returncode == None {
        returncode := seen;
      }
      code := returncode;
    }

    method SendSignal(signum: int)
      modifies this`sent
      ensures sent == old(sent) + [signum]
    {
      sent := sent + [signum];
    }

    method Kill()
      modifies this`killed
      ensures killed
    {
      killed := true;
    }
  }

  /** Stopped gently, then by force: in every case ended and reaped. A child
      already reaped is left alone. */
  method TerminateAndReap(child: Child, signum: int, e: Ending)
    modifies child
    ensures child.returncode ==
            Some(First(First(First(old(child.returncode), e.polled), e.waited), Some(e.killed)).value)
    ensures child.sent == old(child.sent) + if First(old(child.returncode), e.polled) == None then [signum] else []
    ensures child.killed == (old(child.killed) || First(First(old(child.returncode), e.polled), e.waited) == None)
  {
    var code := child.Poll(e.polled);
    if code == None {
      child.SendSignal(signum);
    }
    code := child.Poll(e.waited);
    if code == None {
      child.Kill();
      code := child.Poll(Some(e.killed));
    }
  }

  /** The handler: the first signal sets the exit code and the deadline, and
      every signal is passed on to a child still running. */
  method ForwardSignal(child: Child, d: Delivery, received: Option<int>, deadline: real) returns (first: Option<int>,
      until: real)
    modifies child`returncode, child`sent
    ensures first == First(received, Some(d.signum))
    ensures until == if received.Some? then deadline else d.at + GRACE
    ensures child.returncode == First(old(child.returncode), d.polled)
    ensures child.sent == old(child.sent) + if child.returncode == None then [d.signum] else []
  {
    first, until := received, deadline;
    if received == None {
      first, until := Some(d.signum), d.at + GRACE;
    }
    var code := child.Poll(d.polled);
    if code == None {
      child.SendSignal(d.signum);
    }
  }

  /** The signals passed on to a child last seen with `code`: those after whose
      poll it was still running. */
  function PassedOn(code: Option<int>, signals: seq<Delivery>, n: nat): seq<int>
    requires n <= |signals|
  {
    if n == 0 then []
    else PassedOn(code, signals, n - 1) +
         if First(code, SeenByHandlers(signals, n)) == None then [signals[n - 1].signum] else []
  }

  /** All signals of one round. */
  method ForwardSignals(child: Child, signals: seq<Delivery>, received: Option<int>, deadline: real)
    returns (first: Option<int>, until: real)
    modifies child`returncode, child`sent
    ensures first == First(received, if signals == [] then None else Some(signals[0].signum))
    ensures until == if received.Some? || signals == [] then deadline else signals[0].at + GRACE
    ensures child.returncode == First(old(child.returncode), SeenByHandlers(signals, |signals|))
    ensures child.sent == old(child.sent) + PassedOn(old(child.returncode), signals, |signals|)
  {
    first, until := received, deadline;
    for i := 0 to |signals|
      invariant first == First(received, if i == 0 then None else Some(signals[0].signum))
      invariant until == if received.Some? || i == 0 then deadline else signals[0].at + GRACE
      invariant child.returncode == First(old(child.returncode), SeenByHandlers(signals, i))
      invariant child.sent == old(child.sent) + PassedOn(old(child.returncode), signals, i)
    {
      first, until := ForwardSignal(child, signals[i], first, until);
    }
  }

  /** `started` is where the present stretch of failed checks began. */
  ghost predicate Stretch(rounds: seq<Round>, i: nat, started: Option<real>)
    requires i <= |rounds|
  {
    match started
    case None => i == 0 || rounds[i - 1].check != Failed
    case Some(t) => exists from: nat :: from < i && Began(rounds, from, i) && rounds[from].now == t
  }

  /** The longest stretch of failed checks before `i` begins at `from`. */
  ghost predicate Began(rounds: seq<Round>, from: nat, i: nat)
    requires from < i <= |rounds|
  {
    AllFailed(rounds, from, i - 1) && (from == 0 || rounds[from - 1].check != Failed)
  }

  /** Where the stretch that ends with round `i` began, once that round failed. */
  function StartedBy(started: Option<real>, now: real): real {
    if started.Some? then started.value else now
  }

  lemma StretchGrows(rounds: seq<Round>, i: nat, started: Option<real>)
    requires i < |rounds| && Stretch(rounds, i, started) && rounds[i].check == Failed
    ensures Stretch(rounds, i + 1, Some(StartedBy(started, rounds[i].now)))
  {
    if started.Some? {
      var from: nat :| from < i && Began(rounds, from, i) && rounds[from].now == started.value;
      assert Began(rounds, from, i + 1);
    } else {
      assert Began(rounds, i, i + 1);
    }
  }

  /** The variable's stretch is the longest, so it alone decides. */
  lemma StretchDecides(rounds: seq<Round>, i: nat, started: real, limit: real)
    requires i < |rounds| && Monotone(rounds) && Stretch(rounds, i + 1, Some(started))
    ensures Persisted(rounds, i, limit) <==> rounds[i].now - started >= limit
  {
    var from: nat :| from < i + 1 && Began(rounds, from, i + 1) && rounds[from].now == started;
    if Persisted(rounds, i, limit) {
      var other: nat :| other <= i && AllFailed(rounds, other, i) && rounds[i].now - rounds[other].now >= limit;
      assert from <= other;
    }
  }

  /** One watchdog check: the stretch it leaves, and whether it stops the child. */
  method Watch(ghost rounds: seq<Round>, ghost i: nat, now: real, check: Check, started: Option<real>, limit: real)
    returns (after: Option<real>, stop: bool)
    requires i < |rounds| && Monotone(rounds) && rounds[i].now == now && rounds[i].check == check
    requires Stretch(rounds, i, started) && check != Broke
    ensures Stretch(rounds, i + 1, after)
    ensures stop <==> check == Failed && Persisted(rounds, i, limit)
  {
    after, stop := started, false;
    if check == Failed {
      if after == None {
        after := Some(now);
      }
      StretchGrows(rounds, i, started);
      StretchDecides(rounds, i, after.value, limit);
      stop := now - after.value >= limit;
    } else {
      after := None;
    }
  }

  /** The signal state the loop keeps for the signals caught so far. */
  ghost predicate Tracks(rounds: seq<Round>, i: nat, received: Option<int>, deadline: real)
    requires i <= |rounds|
  {
    match Caught(rounds, i)
    case None => received == None
    case Some(d) => received == Some(d.signum) && deadline == d.at + GRACE
  }

  /** One round of the loop. An end it decides leaves the child reaped. */
  method OneRound(child: Child, rounds: seq<Round>, at: nat, limit: real, last: Ending, caught: Option<int>,
      until: real, failing: Option<real>)
    returns (o: Outcome, received: Option<int>, deadline: real, started: Option<real>)
    requires at < |rounds| && Monotone(rounds) && child.returncode == SeenBefore(rounds, at)
    requires Tracks(rounds, at, caught, until) && (caught == None ==> Stretch(rounds, at, failing))
    modifies child
    ensures o == Decided(rounds, at, limit)
    ensures o != Running ==> child.returncode.Some?
    ensures o == Running ==>
              && child.returncode == SeenBefore(rounds, at + 1) && Tracks(rounds, at + 1, received, deadline)
              && (received == None ==> Stretch(rounds, at + 1, started))
              && child.killed == (old(child.killed) || Overdue(rounds, at))
  {
    o, started := Running, failing;
    var round := rounds[at];
    var code := child.Poll(round.polled);
    received, deadline := ForwardSignals(child, round.signals, caught, until);
    if code.Some? {
      o := Returned(if received.Some? then 128 + received.value else ExitStatus(code.value));
      return;
    }
    if received.Some? {
      if round.now >= deadline {
        child.Kill();
      }
    } else if round.check == Broke {
      o := Raised;
      code := child.Poll(last.polled);
      if code == None {
        TerminateAndReap(child, SIGTERM, last);
      }
      return;
    } else {
      var stop: bool;
      started, stop := Watch(rounds, at, round.now, round.check, started, limit);
      if stop {
        TerminateAndReap(child, SIGTERM, last);
        o := Returned(1);
        return;
      }
    }
    code := child.Poll(round.waited);
  }

  /** The child was past its deadline in some round before `i`. */
  ghost predicate WasOverdue(rounds: seq<Round>, i: nat)
    requires i <= |rounds|
  {
    exists k: nat :: k < i && Overdue(rounds, k)
  }

  /** The whole run. It ends in the first round that decides an end, with what
      that round decides, and the child is then reaped on every path; a run
      the trace leaves undecided goes on. A child is killed during the run
      exactly in a round past the deadline. */
  method RunSupervisor(child: Child, rounds: seq<Round>, limit: real, last: Ending) returns (o: Outcome, at: nat)
    requires child.returncode == None && !child.killed && Monotone(rounds)
    modifies child
    ensures at <= |rounds| && (o == Running <==> at == |rounds|)
    ensures Undecided(rounds, at, limit)
    ensures at < |rounds| ==> o == Decided(rounds, at, limit)
    ensures o != Running ==> child.returncode.Some?
    ensures o == Running ==> child.returncode == SeenBefore(rounds, |rounds|)
    ensures o == Running ==> (child.killed <==> WasOverdue(rounds, at))
  {
    var received: Option<int>, deadline: real := None, 0.0;
    var started: Option<real> := None;
    o, at := Running, 0;
    while at < |rounds|
      invariant at <= |rounds| && o == Running && Undecided(rounds, at, limit)
      invariant child.returncode == SeenBefore(rounds, at)
      invariant Tracks(rounds, at, received, deadline) && (received == None ==> Stretch(rounds, at, started))
      invariant child.killed <==> WasOverdue(rounds, at)
    {
      o, received, deadline, started := OneRound(child, rounds, at, limit, last, received, deadline, started);
      if o != Running {
        return;
      }
      at := at + 1;
    }
  }

  // ----- What the decisions mean over whole runs

  /** While the run goes on, checks that keep failing do so for less than the limit. */
  lemma FailuresAreShort(rounds: seq<Round>, from: nat, i: nat, limit: real)
    requires Monotone(rounds) && from <= i < |rounds| && Undecided(rounds, i + 1, limit)
    requires AllFailed(rounds, from, i) && Caught(rounds, i + 1) == None
    ensures rounds[i].now - rounds[from].now < limit
  {
    assert Decided(rounds, i, limit) == Running;
  }

  /** With rounds at most `gap` apart, a failure that lasts stops the child
      before `limit + gap` has gone by. */
  lemma StopsInTime(rounds: seq<Round>, from: nat, i: nat, limit: real, gap: real)
    requires Monotone(rounds) && from < i < |rounds| && Undecided(rounds, i, limit)
    requires AllFailed(rounds, from, i) && Caught(rounds, i + 1) == None
    requires forall k :: 0 < k < |rounds| ==> rounds[k].now - rounds[k - 1].now <= gap
    ensures rounds[i].now - rounds[from].now < limit + gap
    ensures rounds[i].now - rounds[from].now >= limit && PolledAt(rounds, i) == None ==>
              Decided(rounds, i, limit) == Returned(1)
  {
    assert Caught(rounds, i) == None;
    FailuresAreShort(rounds, from, i - 1, limit);
  }

  /** A passed check ends every stretch: a stop later than that needs the whole
      limit again after it. */
  lemma SuccessResets(rounds: seq<Round>, passed: nat, i: nat, limit: real)
    requires Monotone(rounds) && passed < i < |rounds| && rounds[passed].check == Passed
    requires rounds[i].now - rounds[passed + 1].now < limit
    ensures !Persisted(rounds, i, limit)
  {
    forall from: nat | from <= i && AllFailed(rounds, from, i)
      ensures rounds[i].now - rounds[from].now < limit
    {
      assert passed < from;
    }
  }
}
