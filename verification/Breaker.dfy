/** The circuit breaker: a three-state machine driven by requests for admission and by reports of
    success and failure, in any order and at any times. */
module Breaker {
  import opened Elapsed
  import opened Sequences

  datatype State = Closed | Open | HalfOpen

  datatype Settings = Settings(threshold: int, openSeconds: int, trials: int)

  datatype Breaker = Breaker(state: State, failures: int, openedAt: Option<int>, lastFailure: Option<int>,
                             lastError: Option<string>, trialsUsed: int)

  const FRESH := Breaker(Closed, 0, None, None, None, 0)

  function AtLeastOne(n: int): (m: int)
    ensures m >= 1 && m >= n
  {
    if n < 1 then 1 else n
  }

  /** The decision of `allow_request`, and the breaker it leaves. */
  function Allow(b: Breaker, st: Settings, now: int): (Breaker, bool) {
    var b' :=
      if b.state == Open && b.openedAt.Some? && now >= b.openedAt.value + AtLeastOne(st.openSeconds)
      then b.(state := HalfOpen, trialsUsed := 0) else b;
    match b'.state
    case Closed => (b', true)
    case Open => (b', false)
    case HalfOpen =>
      if b'.trialsUsed >= AtLeastOne(st.trials) then (b', false)
      else (b'.(trialsUsed := b'.trialsUsed + 1), true)
  }

  function Succeed(b: Breaker): Breaker {
    Breaker(Closed, 0, None, None, None, 0)
  }

  function Fail(b: Breaker, st: Settings, error: string, now: int): Breaker {
    var b' := b.(lastError := Some(error), lastFailure := Some(now));
    if b.state == HalfOpen then
      b'.(state := Open, openedAt := Some(now), trialsUsed := 0,
          failures := if st.threshold > b.failures + 1 then st.threshold else b.failures + 1)
    else if b.failures + 1 >= AtLeastOne(st.threshold) then
      b'.(state := Open, openedAt := Some(now), trialsUsed := 0, failures := b.failures + 1)
    else b'.(failures := b.failures + 1)
  }

  class CircuitBreaker {
    const settings: Settings
    var state: State
    var failureCount: int
    var openedAt: Option<int>
    var lastFailure: Option<int>
    var lastError: Option<string>
    var halfOpenTrialsUsed: int

    function View(): Breaker reads this {
      Breaker(state, failureCount, openedAt, lastFailure, lastError, halfOpenTrialsUsed)
    }

    constructor (settings: Settings, b: Breaker)
      ensures this.settings == settings && View() == b
    {
      this.settings := settings;
      state, failureCount, openedAt := b.state, b.failures, b.openedAt;
      lastFailure, lastError, halfOpenTrialsUsed := b.lastFailure, b.lastError, b.trialsUsed;
    }

    method AllowRequest(now: int) returns (admitted: bool)
      modifies this
      ensures (View(), admitted) == Allow(old(View()), settings, now)
    {
      if state == Closed { return true; }
      if state == Open {
        if openedAt.Some? && now >= openedAt.value + AtLeastOne(settings.openSeconds) {
          state := HalfOpen;
          halfOpenTrialsUsed := 0;
        } else {
          return false;
        }
      }
      if halfOpenTrialsUsed >= AtLeastOne(settings.trials) { return false; }
      halfOpenTrialsUsed := halfOpenTrialsUsed + 1;
      admitted := true;
    }

    /** Reports the change of state, if there was one. */
    method RecordSuccess() returns (transition: Option<(State, State)>)
      modifies this
      ensures View() == Succeed(old(View()))
      ensures transition == if old(state) != state then Some((old(state), state)) else None
    {
      var previous := state;
      failureCount, lastError, lastFailure, halfOpenTrialsUsed := 0, None, None, 0;
      state, openedAt := Closed, None;
      transition := if previous != state then Some((previous, state)) else None;
    }

    method RecordFailure(error: string, now: int) returns (transition: Option<(State, State)>)
      modifies this
      ensures View() == Fail(old(View()), settings, error, now)
      ensures transition == if old(state) != state then Some((old(state), state)) else None
    {
      lastError, lastFailure := Some(error), Some(now);
      var previous := state;
      if state == HalfOpen {
        state, openedAt := Open, Some(now);
        failureCount := if settings.threshold > failureCount + 1 then settings.threshold else failureCount + 1;
        halfOpenTrialsUsed := 0;
        return Some((previous, state));
      }
      failureCount := failureCount + 1;
      if failureCount >= AtLeastOne(settings.threshold) {
        state, openedAt, halfOpenTrialsUsed := Open, Some(now), 0;
      }
      transition := if previous != state then Some((previous, state)) else None;
    }
  }

  // ---------------------------------------------------------------- every interleaving of calls

  datatype Call = AllowCall(now: int) | SuccessCall | FailureCall(error: string, now: int)

  function Apply(b: Breaker, st: Settings, c: Call): Breaker {
    match c
    case AllowCall(now) => Allow(b, st, now).0
    case SuccessCall => Succeed(b)
    case FailureCall(error, now) => Fail(b, st, error, now)
  }

  /** The breaker after the first `n` calls on a fresh one. */
  function After(calls: seq<Call>, n: nat, st: Settings): Breaker
    requires n <= |calls|
  {
    if n == 0 then FRESH else Apply(After(calls, n - 1, st), st, calls[n - 1])
  }

  /** Failures reported since the last success. */
  function FailuresSince(calls: seq<Call>, n: nat): nat
    requires n <= |calls|
  {
    if n == 0 || calls[n - 1].SuccessCall? then 0
    else FailuresSince(calls, n - 1) + (if calls[n - 1].FailureCall? then 1 else 0)
  }

  /** Requests admitted since the breaker last became half open; zero outside such an episode. */
  function EpisodeAdmissions(calls: seq<Call>, n: nat, st: Settings): nat
    requires n <= |calls|
  {
    if n == 0 || After(calls, n, st).state != HalfOpen then 0
    else
      var c, before := calls[n - 1], After(calls, n - 1, st);
      var now := if c.AllowCall? && Allow(before, st, c.now).1 then 1 else 0;
      if before.state != HalfOpen then now else EpisodeAdmissions(calls, n - 1, st) + now
  }

  /** The time of the last report of failure, if any since the last success. */
  function LastFailureAt(calls: seq<Call>, n: nat): Option<int>
    requires n <= |calls|
  {
    if n == 0 || calls[n - 1].SuccessCall? then None
    else if calls[n - 1].FailureCall? then Some(calls[n - 1].now)
    else LastFailureAt(calls, n - 1)
  }

  /** Main result: after any interleaving of calls the failure count is the number of failures since
      the last success, the breaker is closed exactly while that number is below the threshold, it
      carries the time of the last failure when it is not closed, and each half-open episode has
      admitted at least one and at most the configured number of trials. */
  lemma {:induction false} StateFollowsFailures(calls: seq<Call>, n: nat, st: Settings)
    requires n <= |calls|
    ensures var b := After(calls, n, st);
      && b.failures == FailuresSince(calls, n)
      && (b.state == Closed <==> FailuresSince(calls, n) < AtLeastOne(st.threshold))
      && b.lastFailure == LastFailureAt(calls, n)
      && b.openedAt == (if b.state == Closed then None else LastFailureAt(calls, n))
      && (b.state != Closed ==> b.openedAt.Some?)
      && b.trialsUsed == EpisodeAdmissions(calls, n, st) <= AtLeastOne(st.trials)
      && (b.state == HalfOpen ==> 1 <= b.trialsUsed)
  {
    if n > 0 {
      StateFollowsFailures(calls, n - 1, st);
    }
  }

  // ---------------------------------------------------------------- one call after another

  /** One wrapped call of the service: when it starts, when it ends, and how. */
  datatype Attempt = Attempt(start: int, finish: int, ok: bool, error: string)

  function Wrap(b: Breaker, st: Settings, a: Attempt): (Breaker, bool) {
    var (b', admitted) := Allow(b, st, a.start);
    if !admitted then (b', false)
    else if a.ok then (Succeed(b'), true)
    else (Fail(b', st, a.error, a.finish), true)
  }

  /** A trial is decided before the wrap that made it returns. */
  lemma HalfOpenNeverSurvivesAWrap(b: Breaker, st: Settings, a: Attempt)
    requires b.state != HalfOpen
    ensures Wrap(b, st, a).0.state != HalfOpen
  {
  }

  /** How many of the attempts reach the service. */
  function Reached(b: Breaker, st: Settings, attempts: seq<Attempt>): nat
    decreases |attempts|
  {
    if attempts == [] then 0
    else
      var (b', reached) := Wrap(b, st, attempts[0]);
      (if reached then 1 else 0) + Reached(b', st, attempts[1..])
  }

  /** Failing attempts one after the other, all starting between `from` and `end`. */
  ghost predicate Outage(attempts: seq<Attempt>, from: int, end: int) {
    && (forall i :: 0 <= i < |attempts| ==>
          !attempts[i].ok && from <= attempts[i].start <= end && attempts[i].start <= attempts[i].finish)
    && (forall i, j :: 0 <= i < j < |attempts| ==> attempts[i].finish <= attempts[j].start)
  }

  /** What holds of every breaker between wraps. */
  predicate BetweenWraps(b: Breaker, st: Settings) {
    match b.state
    case Closed => 0 <= b.failures < AtLeastOne(st.threshold)
    case Open => b.openedAt.Some? && b.failures >= 0
    case HalfOpen => false
  }

  lemma OutageRest(attempts: seq<Attempt>, from: int, end: int)
    requires Outage(attempts, from, end) && attempts != []
    ensures Outage(attempts[1..], from, end)
    ensures Outage(attempts[1..], attempts[0].finish, end)
  {
    var rest := attempts[1..];
    assert forall i :: 0 <= i < |rest| ==> rest[i] == attempts[i + 1];
  }

  /** While open since `o`, an outage gets one trial per elapsed period. */
  lemma {:induction false} OpenBudget(b: Breaker, st: Settings, attempts: seq<Attempt>, from: int, end: int)
    requires BetweenWraps(b, st) && b.state == Open && Outage(attempts, from, end)
    ensures Reached(b, st, attempts) <= Periods(b.openedAt.value, end, AtLeastOne(st.openSeconds))
    decreases |attempts|
  {
    if attempts != [] {
      var (b', reached) := Wrap(b, st, attempts[0]);
      OutageRest(attempts, from, end);
      OpenBudget(b', st, attempts[1..], from, end);
      if reached {
        PeriodsDrop(b.openedAt.value, attempts[0].finish, end, AtLeastOne(st.openSeconds));
      }
    }
  }

  /** The same seen from any moment after opening. */
  lemma {:induction false} OpenWindowBudget(b: Breaker, st: Settings, attempts: seq<Attempt>, from: int, end: int)
    requires BetweenWraps(b, st) && b.state == Open && Outage(attempts, from, end)
    ensures Reached(b, st, attempts) <= 1 + Periods(from, end, AtLeastOne(st.openSeconds))
    decreases |attempts|
  {
    if attempts != [] {
      var (b', reached) := Wrap(b, st, attempts[0]);
      OutageRest(attempts, from, end);
      if reached {
        OpenBudget(b', st, attempts[1..], from, end);
        PeriodsShrink(from, attempts[0].finish, end, AtLeastOne(st.openSeconds));
      } else {
        OpenWindowBudget(b', st, attempts[1..], from, end);
      }
    }
  }

  /** While closed, an outage first uses up the failures left before the threshold. */
  lemma {:induction false} ClosedBudget(b: Breaker, st: Settings, attempts: seq<Attempt>, from: int, end: int)
    requires BetweenWraps(b, st) && b.state == Closed && Outage(attempts, from, end)
    ensures Reached(b, st, attempts)
         <= AtLeastOne(st.threshold) - b.failures + Periods(from, end, AtLeastOne(st.openSeconds))
    decreases |attempts|
  {
    if attempts != [] {
      var (b', reached) := Wrap(b, st, attempts[0]);
      OutageRest(attempts, from, end);
      if b'.state == Closed {
        ClosedBudget(b', st, attempts[1..], from, end);
      } else {
        OpenBudget(b', st, attempts[1..], from, end);
        PeriodsShrink(from, attempts[0].finish, end, AtLeastOne(st.openSeconds));
      }
    }
  }

  /** Main result: in any window of `T` seconds during an outage, at most threshold plus
      floor(T / open_seconds) calls reach the service, whatever state the breaker entered it in. */
  lemma OutageLoadBound(b: Breaker, st: Settings, attempts: seq<Attempt>, from: int, T: nat)
    requires BetweenWraps(b, st) && Outage(attempts, from, from + T)
    ensures Reached(b, st, attempts) <= AtLeastOne(st.threshold) + T / AtLeastOne(st.openSeconds)
  {
    if b.state == Closed {
      ClosedBudget(b, st, attempts, from, from + T);
    } else {
      OpenWindowBudget(b, st, attempts, from, from + T);
    }
  }

  /** Every breaker that wraps leave behind qualifies. */
  lemma WrapKeepsBetween(b: Breaker, st: Settings, a: Attempt)
    requires BetweenWraps(b, st)
    ensures BetweenWraps(FRESH, st) && BetweenWraps(Wrap(b, st, a).0, st)
  {
  }

  // ---------------------------------------------------------------- a trial that is never decided

  /** Half open with every trial used: what an admission leaves when its outcome is never reported. */
  predicate LockedOut(b: Breaker, st: Settings) {
    b.state == HalfOpen && b.trialsUsed >= AtLeastOne(st.trials)
  }

  /** A breaker refuses at every time exactly when it is locked out; a refusal keeps it so. */
  lemma LockedOutIffNeverAdmits(b: Breaker, st: Settings)
    requires b.state == Open ==> b.openedAt.Some?
    ensures LockedOut(b, st) <==> forall now :: !Allow(b, st, now).1
    ensures LockedOut(b, st) ==> forall now :: Allow(b, st, now).0 == b
  {
    if b.state == Open {
      assert Allow(b, st, b.openedAt.value + AtLeastOne(st.openSeconds)).1;
    } else if !LockedOut(b, st) {
      assert Allow(b, st, 0).1;
    }
  }

  /** Once locked out, no later wrap reaches the service, at any time and with any outcome. */
  lemma {:induction false} LockedOutForever(b: Breaker, st: Settings, attempts: seq<Attempt>)
    requires LockedOut(b, st)
    ensures Reached(b, st, attempts) == 0
    decreases |attempts|
  {
    if attempts != [] {
      LockedOutForever(b, st, attempts[1..]);
    }
  }
}
