/** The breaker manager: one breaker per service, saved to a file after every change and rebuilt
    from it at start. */
module BreakerManager {
  import opened Sequences
  import B = Breaker

  const SERVICES: set<string> := {"llm", "gmail", "calendar"}

  /** A breaker's entry in the file; every field may be missing. */
  datatype Payload = Payload(state: Option<string>, failureCount: Option<int>, openedAt: Option<int>,
                             lastFailure: Option<int>, lastError: Option<string>, trialsUsed: Option<int>)

  const EMPTY := Payload(None, None, None, None, None, None)

  function StateName(s: B.State): string {
    match s
    case Closed => "closed"
    case Open => "open"
    case HalfOpen => "half_open"
  }

  function ToPayload(b: B.Breaker): Payload {
    Payload(Some(StateName(b.state)), Some(b.failures), b.openedAt, b.lastFailure, b.lastError, Some(b.trialsUsed))
  }

  /** An unknown or missing state counts as closed, a missing number as zero. */
  function FromPayload(p: Payload): B.Breaker {
    var state := if p.state == Some("open") then B.Open else if p.state == Some("half_open") then B.HalfOpen else B.Closed;
    B.Breaker(state, if p.failureCount.Some? then p.failureCount.value else 0, p.openedAt, p.lastFailure, p.lastError,
              if p.trialsUsed.Some? then p.trialsUsed.value else 0)
  }

  /** Saving and loading loses nothing, and nothing saved is a fresh breaker. */
  lemma PayloadRoundTrips(b: B.Breaker)
    ensures FromPayload(ToPayload(b)) == b
    ensures FromPayload(EMPTY) == B.FRESH
  {
    assert "half_open"[0] != "open"[0];
  }

  datatype Manager = Manager(breakers: map<string, B.Breaker>, file: map<string, Payload>)

  /** A degraded call never reached the service; the others did and returned or raised. */
  datatype Outcome = Degraded | Returned | Raised

  function Entry(file: map<string, Payload>, service: string): Payload {
    if service in file then file[service] else EMPTY
  }

  /** The breakers of these services as the file has them. */
  function Loaded(file: map<string, Payload>, services: set<string>): map<string, B.Breaker> {
    map s | s in services :: FromPayload(Entry(file, s))
  }

  lemma LoadedOneMore(file: map<string, Payload>, services: set<string>, s: string)
    ensures Loaded(file, services + {s}) == Loaded(file, services)[s := FromPayload(Entry(file, s))]
  {
  }

  function Load(file: map<string, Payload>): Manager {
    Manager(Loaded(file, SERVICES), file)
  }

  function Lookup(m: Manager, service: string): B.Breaker {
    if service in m.breakers then m.breakers[service] else B.FRESH
  }

  function Snapshot(breakers: map<string, B.Breaker>): map<string, Payload> {
    map s | s in breakers :: ToPayload(breakers[s])
  }

  /** The manager holding `b` for the service, saved. */
  function Store(m: Manager, service: string, b: B.Breaker): Manager {
    Manager(m.breakers[service := b], Snapshot(m.breakers[service := b]))
  }

  function OutcomeOf(reached: bool, a: B.Attempt): Outcome {
    if !reached then Degraded else if a.ok then Returned else Raised
  }

  function Wrap(m: Manager, st: B.Settings, enabled: bool, service: string, a: B.Attempt): (Manager, Outcome) {
    if !enabled then (m, OutcomeOf(true, a))
    else
      var (b, reached) := B.Wrap(Lookup(m, service), st, a);
      (Store(m, service, b), OutcomeOf(reached, a))
  }

  class ManagerObject {
    const enabled: bool
    const settings: B.Settings
    var breakers: map<string, B.CircuitBreaker>
    var file: map<string, Payload>

    /** No two services share a breaker object. */
    ghost predicate Valid() reads this, breakers.Values {
      && (forall s, t :: s in breakers && t in breakers && s != t ==> breakers[s] != breakers[t])
      && (forall s :: s in breakers ==> breakers[s].settings == settings)
    }

    function Views(): map<string, B.Breaker> reads this, breakers.Values {
      map s | s in breakers :: breakers[s].View()
    }

    ghost function AsManager(): Manager reads this, breakers.Values {
      Manager(Views(), file)
    }

    /** Rebuilds the three named breakers from the file. */
    constructor (enabled: bool, settings: B.Settings, file: map<string, Payload>)
      ensures Valid() && this.enabled == enabled && this.settings == settings
      ensures AsManager() == Load(file)
      ensures fresh(breakers.Values)
    {
      this.enabled, this.settings, this.file := enabled, settings, file;
      breakers := map[];
      new;
      Rebuild();
    }

    method Rebuild()
      requires Valid() && breakers == map[]
      modifies `breakers
      ensures Valid() && Views() == Load(file).breakers && fresh(breakers.Values)
    {
      var left := SERVICES;
      assert Views() == Loaded(file, SERVICES - left);
      while left != {}
        invariant left <= SERVICES && Valid() && fresh(breakers.Values)
        invariant Views() == Loaded(file, SERVICES - left)
        decreases |left|
      {
        var s :| s in left;
        RestoreOne(s, SERVICES - left);
        assert SERVICES - left + {s} == SERVICES - (left - {s});
        left := left - {s};
      }
      assert SERVICES - left == SERVICES;
    }

    /** The breaker of one more service, as the file has it. */
    method RestoreOne(service: string, ghost done: set<string>)
      requires Valid() && Views() == Loaded(file, done) && service !in done
      modifies `breakers
      ensures Valid() && Views() == Loaded(file, done + {service})
      ensures fresh(breakers.Values - old(breakers.Values))
    {
      assert service !in Views();
      LoadedOneMore(file, done, service);
      Add(service, FromPayload(Entry(file, service)));
    }

    /** Registers a breaker for a service that has none. */
    method Add(service: string, b: B.Breaker)
      requires Valid() && service !in breakers
      modifies `breakers
      ensures Valid() && Views() == old(Views())[service := b]
      ensures fresh(breakers.Values - old(breakers.Values))
      ensures service in breakers && fresh(breakers[service]) && breakers[service].View() == b
      ensures breakers == old(breakers)[service := breakers[service]]
    {
      var created := new B.CircuitBreaker(settings, b);
      breakers := breakers[service := created];
    }

    /** The service's breaker, made on first use. */
    method Get(service: string) returns (b: B.CircuitBreaker)
      requires Valid()
      modifies `breakers
      ensures Valid() && service in breakers && breakers[service] == b
      ensures b.View() == Lookup(old(AsManager()), service)
      ensures Views() == old(Views())[service := b.View()]
      ensures breakers.Values <= old(breakers.Values) + {b}
      ensures service in old(breakers) ==> b == old(breakers[service])
      ensures service !in old(breakers) ==> fresh(b)
    {
      if service !in breakers {
        Add(service, B.FRESH);
      }
      b := breakers[service];
    }

    method Persist()
      modifies `file
      ensures Views() == old(Views()) && file == Snapshot(Views())
    {
      file := Snapshot(Views());
    }

    method Ask(service: string, b: B.CircuitBreaker, now: int) returns (admitted: bool)
      requires Valid() && service in breakers && breakers[service] == b
      modifies b
      ensures Valid() && Views() == old(Views())[service := b.View()]
      ensures (b.View(), admitted) == B.Allow(old(b.View()), settings, now)
    {
      admitted := b.AllowRequest(now);
    }

    /** Asks the service's breaker for admission and saves what that leaves. */
    method Admit(service: string, now: int) returns (b: B.CircuitBreaker, admitted: bool)
      requires Valid()
      modifies this, breakers.Values
      ensures Valid() && service in breakers && breakers[service] == b
      ensures (b.View(), admitted) == B.Allow(Lookup(old(AsManager()), service), settings, now)
      ensures AsManager() == Store(old(AsManager()), service, b.View())
      ensures b in old(breakers.Values) || fresh(b)
    {
      ghost var views := Views();
      b := Get(service);
      admitted := Ask(service, b, now);
      assert Views() == views[service := b.View()];
      Persist();
    }

    /** Tells the service's breaker how the call ended and saves that. */
    method Report(service: string, b: B.CircuitBreaker, a: B.Attempt)
      requires Valid() && service in breakers && breakers[service] == b
      modifies `file, b
      ensures Valid()
      ensures AsManager() == Store(old(AsManager()), service, Reported(old(b.View()), settings, a))
    {
      if a.ok {
        var _ := b.RecordSuccess();
      } else {
        var _ := b.RecordFailure(a.error, a.finish);
      }
      assert Views() == old(Views())[service := b.View()];
      Persist();
    }

    method WrapCall(service: string, a: B.Attempt) returns (outcome: Outcome)
      requires Valid()
      modifies this, breakers.Values
      ensures Valid()
      ensures (AsManager(), outcome) == Wrap(old(AsManager()), settings, enabled, service, a)
    {
      if !enabled { return OutcomeOf(true, a); }
      var b, admitted := Admit(service, a.start);
      if !admitted { return Degraded; }
      StoreTwice(old(AsManager()), service, b.View(), Reported(b.View(), settings, a));
      Report(service, b, a);
      outcome := OutcomeOf(true, a);
    }
  }

  function Reported(b: B.Breaker, st: B.Settings, a: B.Attempt): B.Breaker {
    if a.ok then B.Succeed(b) else B.Fail(b, st, a.error, a.finish)
  }

  lemma StoreTwice(m: Manager, service: string, first: B.Breaker, second: B.Breaker)
    ensures Store(Store(m, service, first), service, second) == Store(m, service, second)
  {
    assert m.breakers[service := first][service := second] == m.breakers[service := second];
  }

  // ---------------------------------------------------------------- restarts between calls

  datatype Op = WrapOp(service: string, a: B.Attempt) | Restart

  function Perform(m: Manager, st: B.Settings, enabled: bool, op: Op): Manager {
    match op
    case WrapOp(service, a) => Wrap(m, st, enabled, service, a).0
    case Restart => Load(m.file)
  }

  function After(ops: seq<Op>, n: nat, st: B.Settings, enabled: bool, file: map<string, Payload>): Manager
    requires n <= |ops|
  {
    if n == 0 then Load(file) else Perform(After(ops, n - 1, st, enabled, file), st, enabled, ops[n - 1])
  }

  /** The service's breaker if it were alone and never restarted. */
  function Solo(ops: seq<Op>, n: nat, st: B.Settings, enabled: bool, file: map<string, Payload>, s: string): B.Breaker
    requires n <= |ops|
  {
    if n == 0 then FromPayload(Entry(file, s))
    else
      var before := Solo(ops, n - 1, st, enabled, file, s);
      if enabled && ops[n - 1].WrapOp? && ops[n - 1].service == s then B.Wrap(before, st, ops[n - 1].a).0 else before
  }

  /** The file always holds what a restart needs for the named services. */
  ghost predicate Synced(m: Manager) {
    forall s :: s in SERVICES ==> s in m.breakers && FromPayload(Entry(m.file, s)) == m.breakers[s]
  }

  lemma StoreSynced(m: Manager, service: string, b: B.Breaker)
    requires Synced(m)
    ensures Synced(Store(m, service, b))
    ensures forall s :: Lookup(Store(m, service, b), s) == if s == service then b else Lookup(m, s)
  {
    forall s | s in SERVICES ensures FromPayload(Entry(Store(m, service, b).file, s)) == Store(m, service, b).breakers[s] {
      PayloadRoundTrips(Store(m, service, b).breakers[s]);
    }
  }

  lemma {:induction false} RestartsAreInvisible(ops: seq<Op>, n: nat, st: B.Settings, enabled: bool, file: map<string, Payload>, s: string)
    requires n <= |ops| && s in SERVICES
    ensures Synced(After(ops, n, st, enabled, file))
    ensures Lookup(After(ops, n, st, enabled, file), s) == Solo(ops, n, st, enabled, file, s)
  {
    if n > 0 {
      RestartsAreInvisible(ops, n - 1, st, enabled, file, s);
      if ops[n - 1].WrapOp? && enabled {
        var m := After(ops, n - 1, st, enabled, file);
        StoreSynced(m, ops[n - 1].service, B.Wrap(Lookup(m, ops[n - 1].service), st, ops[n - 1].a).0);
      }
    }
  }

  /** Main result: with restarts between any two calls, every call on a named service gets the
      admission and the outcome it would get had the manager never been rebuilt. */
  lemma RestartsNeverChangeAnAnswer(ops: seq<Op>, n: nat, st: B.Settings, enabled: bool, file: map<string, Payload>, s: string, a: B.Attempt)
    requires n < |ops| && s in SERVICES && ops[n] == WrapOp(s, a)
    ensures Wrap(After(ops, n, st, enabled, file), st, enabled, s, a).1
         == OutcomeOf(!enabled || B.Wrap(Solo(ops, n, st, enabled, file, s), st, a).1, a)
  {
    RestartsAreInvisible(ops, n, st, enabled, file, s);
  }

  /** A restart keeps a service's breaker exactly when the service is one of the three named ones or
      its breaker was still fresh. */
  lemma RestartForgetsOnlyUnnamed(m: Manager, s: string)
    requires Synced(m)
    ensures Lookup(Load(m.file), s) == Lookup(m, s) <==> s in SERVICES || Lookup(m, s) == B.FRESH
  {
  }

  // ---------------------------------------------------------------- a crash inside a call

  /** The process dies after the admission was saved and before its outcome is; a new one starts. */
  function CrashInside(m: Manager, st: B.Settings, service: string, now: int): Manager {
    Load(Store(m, service, B.Allow(Lookup(m, service), st, now).0).file)
  }

  lemma LockoutPersists(m: Manager, st: B.Settings, s: string, op: Op)
    requires Synced(m) && s in SERVICES && B.LockedOut(Lookup(m, s), st)
    ensures var m' := Perform(m, st, true, op); Synced(m') && Lookup(m', s) == Lookup(m, s)
    ensures op.WrapOp? && op.service == s ==> Wrap(m, st, true, s, op.a).1 == Degraded
  {
    if op.WrapOp? {
      StoreSynced(m, op.service, B.Wrap(Lookup(m, op.service), st, op.a).0);
    }
  }

  /** The admission at this time uses up the last half-open trial. */
  predicate IsLastTrial(b: B.Breaker, st: B.Settings) {
    || (b.state == B.Open && B.AtLeastOne(st.trials) == 1)
    || (b.state == B.HalfOpen && b.trialsUsed + 1 >= B.AtLeastOne(st.trials))
  }

  /** A crash inside an admitted call locks a named service out exactly when the call was the last
      half-open trial; in every other case some later call is admitted. */
  lemma CrashLocksOutIffLastTrial(m: Manager, st: B.Settings, s: string, now: int)
    requires Synced(m) && s in SERVICES && B.Allow(Lookup(m, s), st, now).1
    ensures (forall a :: Wrap(CrashInside(m, st, s, now), st, true, s, a).1 == Degraded) <==> IsLastTrial(Lookup(m, s), st)
  {
    var b := B.Allow(Lookup(m, s), st, now).0;
    StoreSynced(m, s, b);
    B.LockedOutIffNeverAdmits(b, st);
    if !B.LockedOut(b, st) {
      var t :| B.Allow(b, st, t).1;
      assert Wrap(CrashInside(m, st, s, now), st, true, s, B.Attempt(t, t, true, "")).1 != Degraded;
    }
  }

  /** A crash that leaves every trial used locks a named service out for good: no later call on it
      reaches the service, however much time passes and however often the process restarts. */
  lemma {:induction false} CrashInsideTrialLocksOut(m: Manager, st: B.Settings, s: string, now: int, ops: seq<Op>, n: nat)
    requires Synced(m) && s in SERVICES && B.LockedOut(B.Allow(Lookup(m, s), st, now).0, st)
    requires n <= |ops|
    ensures var m' := AfterCrash(m, st, s, now, ops, n);
      && Synced(m') && B.LockedOut(Lookup(m', s), st)
      && forall a :: Wrap(m', st, true, s, a).1 == Degraded
  {
    if n == 0 {
      StoreSynced(m, s, B.Allow(Lookup(m, s), st, now).0);
    } else {
      CrashInsideTrialLocksOut(m, st, s, now, ops, n - 1);
      LockoutPersists(AfterCrash(m, st, s, now, ops, n - 1), st, s, ops[n - 1]);
    }
  }

  function AfterCrash(m: Manager, st: B.Settings, s: string, now: int, ops: seq<Op>, n: nat): Manager
    requires n <= |ops|
  {
    if n == 0 then CrashInside(m, st, s, now) else Perform(AfterCrash(m, st, s, now, ops, n - 1), st, true, ops[n - 1])
  }
}
