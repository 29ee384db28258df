/** The approval service: its four calls as functions of the files they touch, the object that
    performs them, and what every sequence of calls conserves. */
module ApprovalService {
  import opened Sequences
  import opened Ledger
  import opened Policy
  import opened Approvals

  /** The clock, switches and policy that one call reads. */
  datatype Env = Env(now: int, safeMode: bool, policy: PermissionsPolicy, autoclean: bool)

  datatype Response = Returned(record: Approval) | Refused(httpStatus: nat) | Escaped

  datatype Service = Service(records: seq<Approval>, log: Log, runs: seq<Run>)

  const DUPLICATE := "{\"skipped\":true,\"reason\":\"idempotent_duplicate\"}"

  function StartOp(r: Approval, now: int): Op {
    Start(ExecutionKey(r), ApprovalExecKind, now, None,
          map["approval_id" := r.id, "skill_name" := r.step.skillName])
  }

  function MarkOp(r: Approval, result: StepResult, now: int): Op {
    if result.ok then Mark(ExecutionKey(r), Succeeded, now, map[])
    else Mark(ExecutionKey(r), Failed, now, map["error" := if result.text == "" then "execution_failed" else result.text])
  }

  function Lapsed(r: Approval): Approval {
    r.(status := Expired, error := "approval expired")
  }

  function Denied(r: Approval): Approval {
    r.(status := Rejected, error := "policy_denied")
  }

  function Declined(r: Approval, reason: string): Approval {
    r.(status := Rejected, error := reason)
  }

  /** The record after its step was executed, or skipped because the ledger refused the key. */
  function Completed(r: Approval, result: StepResult): Approval {
    r.(status := Approved, result := Some(result), error := if result.ok then "" else result.text)
  }

  function DuplicateResult(r: Approval): StepResult {
    StepResult(r.step.id, true, DUPLICATE)
  }

  function Reject(s: Service, id: string, reason: string, env: Env): (Service, Response) {
    match Get(s.records, id)
    case None => (s, Refused(404))
    case Some(r) =>
      if r.status != Pending then (s, Refused(400))
      else if IsExpired(r, env.now) then
        (s.(records := Settle(s.records, Lapsed(r), env.autoclean)), Refused(400))
      else
        var r' := Declined(r, reason);
        (s.(records := Settle(s.records, r', env.autoclean)), Returned(r'))
  }

  /** The part of `approve` after the policy check: claim the key, execute with force, report. */
  function Execute(s: Service, registry: Registry, cap: int, r: Approval, env: Env, rd: Reading): (Service, Response) {
    if !Accepts(s.log.file, StartOp(r, env.now)) then
      var r' := Completed(r, DuplicateResult(r));
      (s.(records := Settle(s.records, r', env.autoclean)), Returned(r'))
    else
      var log := Perform(s.log, StartOp(r, env.now), cap);
      var x := ExecStep(Exec(s.records, s.runs, [], false), registry, r.step, rd, true);
      if x.raised then (Service(s.records, log, s.runs), Escaped)
      else
        var r' := Completed(r, x.results[0]);
        (Service(Settle(s.records, r', env.autoclean), Perform(log, MarkOp(r, x.results[0], env.now), cap), x.runs),
         Returned(r'))
  }

  /** The policy check of `approve`, made on a pending record that has not expired. */
  function Authorise(s: Service, registry: Registry, cap: int, r: Approval, env: Env, rd: Reading): (Service, Response) {
    if !env.policy.CheckScopes(r.scopes).0
    then (s.(records := Settle(s.records, Denied(r), env.autoclean)), Refused(400))
    else Execute(s, registry, cap, r, env, rd)
  }

  /** `approve` on a pending record with safe mode off. */
  function ApprovePending(s: Service, registry: Registry, cap: int, r: Approval, env: Env, rd: Reading): (Service, Response) {
    if IsExpired(r, env.now)
    then (s.(records := Settle(s.records, Lapsed(r), env.autoclean)), Refused(400))
    else Authorise(s, registry, cap, r, env, rd)
  }

  function Approve(s: Service, registry: Registry, cap: int, id: string, env: Env, rd: Reading): (Service, Response) {
    match Get(s.records, id)
    case None => (s, Refused(404))
    case Some(r) =>
      if r.status == Approved then (s, Returned(r.(result := Some(DuplicateResult(r)))))
      else if r.status != Pending then (s, Refused(400))
      else if env.safeMode then (s, Refused(409))
      else ApprovePending(s, registry, cap, r, env, rd)
  }

  class ServiceObject {
    const store: ApprovalStore
    const ledger: ExecutionLedger
    const executor: Executor
    const registry: Registry

    constructor (store: ApprovalStore, ledger: ExecutionLedger, executor: Executor, registry: Registry)
      ensures this.store == store && this.ledger == ledger && this.executor == executor && this.registry == registry
    {
      this.store, this.ledger, this.executor, this.registry := store, ledger, executor, registry;
    }

    ghost function State(): Service reads this, store, ledger, executor {
      Service(store.file, ledger.AsLog(), executor.runs)
    }

    /** Nothing is returned when the source raises. A record is made exactly for a registered write skill
        with safe mode off and every needed scope enabled; it can be decided until its time to live is over. */
    method CreatePending(step: PlanStep, asked: seq<string>, env: Env, ttl: int, id: string) returns (made: Option<Approval>)
      modifies store
      ensures made.Some? <==> (&& step.skillName != "" && !env.safeMode
        && step.skillName in registry && registry[step.skillName].writes
        && forall scope :: scope in ApprovalScopes(step.skillName, registry[step.skillName], asked) ==> env.policy.IsScopeEnabled(scope))
      ensures made.Some? ==>
        && Get(store.file, id) == Some(made.value) && made.value.id == id && made.value.status == Pending
        && made.value.step == step && (forall t :: IsExpired(made.value, t) <==> t >= env.now + ttl)
      ensures made == NewApproval(registry, step, asked, env.policy, env.safeMode, env.now, ttl, id)
      ensures store.file == if made.Some? then Upsert(old(store.file), made.value) else old(store.file)
    {
      if step.skillName == "" { return None; }
      if env.safeMode { return None; }
      if step.skillName !in registry { return None; }
      var skill := registry[step.skillName];
      if !skill.writes { return None; }
      var scopes := if asked != [] then asked else skill.requiredScopes;
      if scopes == [] { scopes := DefaultScopes(step.skillName, skill.writes); }
      var (allowed, disabled) := env.policy.CheckScopes(scopes);
      if !allowed { return None; }
      var record := Approval(id, env.now + ttl, Pending, step, scopes, None, "");
      store.UpsertRecord(record);
      UpsertIsFound(old(store.file), record);
      made := Some(record);
    }

    method PersistOrClean(r: Approval, autoclean: bool)
      modifies store
      ensures store.file == Settle(old(store.file), r, autoclean)
    {
      if autoclean && (r.status == Approved || r.status == Rejected || r.status == Expired) {
        store.DeleteRecord(r.id);
      } else {
        store.UpsertRecord(r);
      }
    }

    method RejectRecord(id: string, reason: string, env: Env) returns (response: Response)
      modifies store
      ensures (State(), response) == Reject(old(State()), id, reason, env)
    {
      var found := store.GetRecord(id);
      if found.None? { return Refused(404); }
      var r := found.value;
      if r.status != Pending { return Refused(400); }
      if IsExpired(r, env.now) {
        PersistOrClean(Lapsed(r), env.autoclean);
        return Refused(400);
      }
      r := Declined(r, reason);
      PersistOrClean(r, env.autoclean);
      response := Returned(r);
    }

    /** Runs the claimed step with force and reports its outcome. */
    method ExecuteClaimed(r: Approval, env: Env, rd: Reading) returns (response: Response)
      requires ledger.Valid()
      modifies store, ledger, executor
      ensures ledger.Valid()
      ensures (State(), response) == Execute(old(State()), registry, ledger.maxRecords, r, env, rd)
    {
      var op := StartOp(r, env.now);
      StartableMeansCanStart(ledger.history, ledger.maxRecords, op.key);
      var started := ledger.TryStart(op.key, op.kind, op.ts, op.correlation, op.meta);
      if !started {
        var r' := Completed(r, DuplicateResult(r));
        PersistOrClean(r', env.autoclean);
        return Returned(r');
      }
      var results, raised := executor.ExecutePlan(store, registry, [r.step], [rd], true);
      ForcedStepKeepsRecords(Exec(old(store.file), old(executor.runs), [], false), registry, r.step, rd);
      if raised { return Escaped; }
      var done := MarkOp(r, results[0], env.now);
      ledger.MarkKey(done.key, done.status, done.ts, done.update);
      var r' := Completed(r, results[0]);
      PersistOrClean(r', env.autoclean);
      response := Returned(r');
    }

    method ApproveRecord(id: string, env: Env, rd: Reading) returns (response: Response)
      requires ledger.Valid()
      modifies store, ledger, executor
      ensures ledger.Valid()
      ensures (State(), response) == Approve(old(State()), registry, ledger.maxRecords, id, env, rd)
    {
      var found := store.GetRecord(id);
      if found.None? { return Refused(404); }
      var r := found.value;
      if r.status == Approved { return Returned(r.(result := Some(DuplicateResult(r)))); }
      if r.status != Pending { return Refused(400); }
      if env.safeMode { return Refused(409); }
      if IsExpired(r, env.now) {
        PersistOrClean(Lapsed(r), env.autoclean);
        return Refused(400);
      }
      if !env.policy.CheckScopes(r.scopes).0 {
        PersistOrClean(Denied(r), env.autoclean);
        return Refused(400);
      }
      response := ExecuteClaimed(r, env, rd);
    }
  }

  /** What was stored last under an id is what is found under it. */
  lemma UpsertIsFound(records: seq<Approval>, r: Approval)
    ensures Get(Upsert(records, r), r.id) == Some(r)
  {
    var i := IndexOf(records, r.id);
    var after := Upsert(records, r);
    assert if 0 <= i then after[i] == r else after[|records|] == r;
    assert forall j :: 0 <= j < |records| && j != i ==> after[j] == records[j];
  }

  /** With force no approval is created, and exactly one result comes back unless it raises. */
  lemma ForcedStepKeepsRecords(x: Exec, registry: Registry, step: PlanStep, rd: Reading)
    requires !x.raised
    ensures var y := ExecStep(x, registry, step, rd, true);
      && y.records == x.records
      && (y.raised ==> y.runs == x.runs)
      && (!y.raised ==> |y.results| == |x.results| + 1)
    ensures ExecPlan(x, registry, [step], [rd], 1, true) == ExecStep(x, registry, step, rd, true)
  {
    assert ExecPlan(x, registry, [step], [rd], 0, true) == x;
  }

  /** `approve` gets past its own checks on this record. */
  ghost predicate Approvable(r: Approval, env: Env) {
    && r.status == Pending && !env.safeMode && env.now < r.expiresAt
    && forall scope :: scope in r.scopes ==> env.policy.IsScopeEnabled(scope)
  }

  /** The executor gets past its own checks on this step. */
  ghost predicate Runnable(registry: Registry, step: PlanStep, rd: Reading) {
    && step.skillName != "" && step.skillName in registry
    && (forall scope :: scope in registry[step.skillName].requiredScopes ==> rd.policy.IsScopeEnabled(scope))
    && (registry[step.skillName].writes ==> !rd.safeMode)
  }

  lemma JudgedWithForce(registry: Registry, step: PlanStep, rd: Reading)
    ensures Judge(registry, step, rd.policy, rd.safeMode, true).MayRun? <==> Runnable(registry, step, rd)
  {
  }

  lemma ForcedRuns(x: Exec, registry: Registry, step: PlanStep, rd: Reading)
    requires !x.raised
    ensures ExecStep(x, registry, step, rd, true).runs
      == if Runnable(registry, step, rd) then x.runs + [Run(step.skillName, step.args)] else x.runs
  {
    JudgedWithForce(registry, step, rd);
  }

  lemma RefusedClaimRunsNothing(s: Service, registry: Registry, cap: int, r: Approval, env: Env, rd: Reading)
    requires !Accepts(s.log.file, StartOp(r, env.now))
    ensures Execute(s, registry, cap, r, env, rd).0.runs == s.runs
  {
  }

  lemma GrantedClaimExecutes(s: Service, registry: Registry, cap: int, r: Approval, env: Env, rd: Reading, x: Exec)
    requires Accepts(s.log.file, StartOp(r, env.now)) && x == ExecStep(Exec(s.records, s.runs, [], false), registry, r.step, rd, true)
    requires x.raised ==> x.runs == s.runs
    ensures Execute(s, registry, cap, r, env, rd).0.runs == x.runs
  {
  }

  lemma ExecuteRunsExactlyWhenAllowed(s: Service, registry: Registry, cap: int, r: Approval, env: Env, rd: Reading)
    ensures Execute(s, registry, cap, r, env, rd).0.runs
      == if Accepts(s.log.file, StartOp(r, env.now)) && Runnable(registry, r.step, rd)
         then s.runs + [Run(r.step.skillName, r.step.args)] else s.runs
  {
    if Accepts(s.log.file, StartOp(r, env.now)) {
      var x := Exec(s.records, s.runs, [], false);
      ForcedRuns(x, registry, r.step, rd);
      ForcedStepKeepsRecords(x, registry, r.step, rd);
      GrantedClaimExecutes(s, registry, cap, r, env, rd, ExecStep(x, registry, r.step, rd, true));
    } else {
      RefusedClaimRunsNothing(s, registry, cap, r, env, rd);
    }
  }

  lemma UnapprovableRunsNothing(s: Service, registry: Registry, cap: int, id: string, env: Env, rd: Reading)
    requires Get(s.records, id).Some? ==> !Approvable(Get(s.records, id).value, env)
    ensures Approve(s, registry, cap, id, env, rd).0.runs == s.runs
  {
  }

  lemma ApprovableIsExecuted(s: Service, registry: Registry, cap: int, id: string, env: Env, rd: Reading)
    requires Get(s.records, id).Some? && Approvable(Get(s.records, id).value, env)
    ensures Approve(s, registry, cap, id, env, rd) == Execute(s, registry, cap, Get(s.records, id).value, env, rd)
  {
  }

  /** Approving runs a skill exactly when the record is approvable, the history of its key lets it
      start, and the executor's own checks pass; then it runs that record's step, once. */
  lemma ApproveRunsExactlyWhenAllowed(s: Service, registry: Registry, cap: int, id: string, env: Env, rd: Reading)
    requires s.log.file == Window(s.log.history, cap)
    ensures var found := Get(s.records, id);
      Approve(s, registry, cap, id, env, rd).0.runs
      == if found.Some? && Approvable(found.value, env) && Runnable(registry, found.value.step, rd)
            && StartableByHistory(s.log.history, cap, ExecutionKey(found.value))
         then s.runs + [Run(found.value.step.skillName, found.value.step.args)] else s.runs
  {
    var found := Get(s.records, id);
    if found.Some? && Approvable(found.value, env) {
      ApprovableIsExecuted(s, registry, cap, id, env, rd);
      StartableMeansCanStart(s.log.history, cap, ExecutionKey(found.value));
      ExecuteRunsExactlyWhenAllowed(s, registry, cap, found.value, env, rd);
    } else {
      UnapprovableRunsNothing(s, registry, cap, id, env, rd);
    }
  }

  /** The refusals: unknown id, decided or overdue or no longer permitted, safe mode; every other call
      returns a record or lets the executor's exception escape. */
  lemma ApproveRefusesExactlyWhen(s: Service, registry: Registry, cap: int, id: string, env: Env, rd: Reading)
    ensures var (s', response) := Approve(s, registry, cap, id, env, rd);
      var found := Get(s.records, id);
      && (response == Refused(404) <==> found.None?)
      && (response == Refused(409) <==> found.Some? && found.value.status == Pending && env.safeMode)
      && (response == Refused(400) <==> (&& found.Some? && found.value.status != Approved
                                         && (found.value.status == Pending ==> !env.safeMode) && !Approvable(found.value, env)))
      && (response.Refused? && found.Some? && found.value.status == Pending && !env.safeMode ==>
            s' == s.(records := Settle(s.records, if env.now >= found.value.expiresAt then Lapsed(found.value) else Denied(found.value),
                                       env.autoclean)))
  {
  }

  // ---------------------------------------------------------------- lifecycle of the records

  datatype Call =
    | CreateCall(step: PlanStep, asked: seq<string>, ttl: int, id: string)
    | ApproveCall(id: string, rd: Reading)
    | RejectCall(id: string, reason: string)
    | CleanupCall

  /** The service with every id it has ever issued. */
  datatype World = World(service: Service, issued: set<string>)

  predicate Fresh(w: World, c: Call) {
    c.CreateCall? ==> c.id !in w.issued
  }

  function Serve(w: World, c: Call, env: Env, registry: Registry, cap: int): World {
    match c
    case CreateCall(step, asked, ttl, id) =>
      (match NewApproval(registry, step, asked, env.policy, env.safeMode, env.now, ttl, id)
       case None => w
       case Some(a) => World(w.service.(records := Upsert(w.service.records, a)), w.issued + {id}))
    case ApproveCall(id, rd) => w.(service := Approve(w.service, registry, cap, id, env, rd).0)
    case RejectCall(id, reason) => w.(service := Reject(w.service, id, reason, env).0)
    case CleanupCall => w.(service := w.service.(records := Cleaned(w.service.records, env.now, env.autoclean)))
  }

  ghost predicate IsRun(worlds: seq<World>, calls: seq<Call>, envs: seq<Env>, registry: Registry, cap: int) {
    && |worlds| == |calls| + 1 && |envs| == |calls|
    && worlds[0] == World(Service([], Log([], []), []), {})
    && forall i :: 0 <= i < |calls| ==>
         Fresh(worlds[i], calls[i]) && worlds[i + 1] == Serve(worlds[i], calls[i], envs[i], registry, cap)
  }

  ghost predicate UniqueIds(records: seq<Approval>) {
    forall i, j :: 0 <= i < j < |records| ==> records[i].id != records[j].id
  }

  /** With unique ids, looking an id up finds the record of that id. */
  lemma GetContents(records: seq<Approval>, id: string)
    requires UniqueIds(records)
    ensures Get(records, id).None? <==> forall q :: q in records ==> q.id != id
    ensures forall r :: Get(records, id) == Some(r) <==> r in records && r.id == id
  {
  }

  ghost predicate Has(records: seq<Approval>, id: string) {
    exists r :: r in records && r.id == id
  }

  lemma UpsertContents(records: seq<Approval>, r: Approval)
    requires UniqueIds(records)
    ensures UniqueIds(Upsert(records, r))
    ensures forall q :: q in Upsert(records, r) <==> q == r || (q in records && q.id != r.id)
  {
    var i := IndexOf(records, r.id);
    var records' := Upsert(records, r);
    if 0 <= i {
      assert records'[i] == r;
    } else {
      assert records'[|records|] == r;
    }
    forall q | q in records && q.id != r.id ensures q in records' {
      var j :| 0 <= j < |records| && records[j] == q;
      assert records'[j] == q;
    }
  }

  lemma {:induction false} DeleteUnique(records: seq<Approval>, id: string)
    requires UniqueIds(records)
    ensures UniqueIds(Delete(records, id))
  {
    if records != [] {
      var front, last := records[..|records| - 1], records[|records| - 1];
      DeleteUnique(front, id);
      DeleteContents(front, id);
      forall q | q in Delete(front, id) ensures q.id != last.id {
        var j :| 0 <= j < |front| && front[j] == q;
      }
    }
  }

  lemma SettleContents(records: seq<Approval>, r: Approval, autoclean: bool)
    requires UniqueIds(records)
    ensures UniqueIds(Settle(records, r, autoclean))
    ensures forall q :: q in Settle(records, r, autoclean) <==>
      (q in records && q.id != r.id) || (q == r && !(autoclean && r.status != Pending))
  {
    UpsertContents(records, r);
    DeleteUnique(records, r.id);
    DeleteContents(records, r.id);
  }

  /** `q` is one of the records, or what cleanup makes of an overdue one. */
  ghost predicate Survives(records: seq<Approval>, q: Approval, now: int) {
    exists r :: r in records && r.id == q.id && (q == r || Overdue(r, now))
  }

  lemma {:induction false} CleanedSurvive(records: seq<Approval>, now: int, autoclean: bool)
    ensures forall q :: q in Cleaned(records, now, autoclean) ==> Survives(records, q, now)
  {
    if records != [] {
      var prior, last := records[..|records| - 1], records[|records| - 1];
      CleanedSurvive(prior, now, autoclean);
      assert last in records && forall r :: r in prior ==> r in records;
    }
  }

  lemma {:induction false} CleanedContents(records: seq<Approval>, now: int, autoclean: bool)
    requires UniqueIds(records)
    ensures UniqueIds(Cleaned(records, now, autoclean))
    ensures forall r :: r in records && !Overdue(r, now) ==> r in Cleaned(records, now, autoclean)
    ensures forall q :: q in Cleaned(records, now, autoclean) ==> Survives(records, q, now)
  {
    CleanedSurvive(records, now, autoclean);
    if records != [] {
      var prior, last := records[..|records| - 1], records[|records| - 1];
      CleanedContents(prior, now, autoclean);
      forall q | q in Cleaned(prior, now, autoclean) ensures q.id != last.id {
        var r :| r in prior && r.id == q.id;
      }
    }
  }

  /** The call that decides about this record. */
  predicate Targets(c: Call, id: string) {
    (c.ApproveCall? || c.RejectCall?) && c.id == id
  }

  /** What one call may do to the records: ids stay unique and come from the store or are fresh; a
      decided record stays as it is; a pending record that is not overdue stays as it is unless
      the call targets it, and then it can only become approved or rejected. */
  ghost predicate Conserves(before: seq<Approval>, after: seq<Approval>, c: Call, env: Env) {
    && UniqueIds(after)
    && (forall q :: q in after ==> Has(before, q.id) || (c.CreateCall? && q.id == c.id))
    && (forall r :: r in before && r.status != Pending ==> r in after)
    && (forall r :: r in before && r.status == Pending && !IsExpired(r, env.now) && !Targets(c, r.id) ==> r in after)
    && (forall r, q :: r in before && q in after && q.id == r.id && r.status == Pending && !IsExpired(r, env.now)
          ==> q == r || (Targets(c, r.id) && (q.status == Approved || q.status == Rejected)))
  }

  /** Deciding a pending record conserves the rest; expiry is only for overdue ones. */
  lemma DecisionConserves(records: seq<Approval>, r: Approval, r': Approval, c: Call, env: Env)
    requires UniqueIds(records) && r in records && r.status == Pending
    requires Targets(c, r.id) && r'.id == r.id && r'.status != Pending
    requires r'.status == Expired ==> IsExpired(r, env.now)
    ensures Conserves(records, Settle(records, r', env.autoclean), c, env)
  {
    SettleContents(records, r', env.autoclean);
    assert forall q :: q in records && q.id == r.id ==> q == r;
  }

  lemma SameConserves(records: seq<Approval>, c: Call, env: Env)
    requires UniqueIds(records)
    ensures Conserves(records, records, c, env)
  {
  }

  /** The records after an execution: unchanged, or the one record settled as approved. */
  lemma ExecutedRecords(s: Service, registry: Registry, cap: int, r: Approval, env: Env, rd: Reading) returns (result: Option<StepResult>)
    ensures Execute(s, registry, cap, r, env, rd).0.records
      == if result.None? then s.records else Settle(s.records, Completed(r, result.value), env.autoclean)
  {
    var x := ExecStep(Exec(s.records, s.runs, [], false), registry, r.step, rd, true);
    ForcedStepKeepsRecords(Exec(s.records, s.runs, [], false), registry, r.step, rd);
    result := if !Accepts(s.log.file, StartOp(r, env.now)) then Some(DuplicateResult(r))
              else if x.raised then None else Some(x.results[0]);
  }

  lemma ExecuteConserves(s: Service, registry: Registry, cap: int, r: Approval, env: Env, rd: Reading)
    requires UniqueIds(s.records) && r in s.records && r.status == Pending
    ensures Conserves(s.records, Execute(s, registry, cap, r, env, rd).0.records, ApproveCall(r.id, rd), env)
  {
    var c := ApproveCall(r.id, rd);
    var result := ExecutedRecords(s, registry, cap, r, env, rd);
    if result.None? {
      SameConserves(s.records, c, env);
    } else {
      DecisionConserves(s.records, r, Completed(r, result.value), c, env);
    }
  }

  lemma RefusalConserves(s: Service, registry: Registry, cap: int, id: string, env: Env, rd: Reading)
    requires UniqueIds(s.records) && (Get(s.records, id).Some? ==> !Approvable(Get(s.records, id).value, env))
    ensures Conserves(s.records, Approve(s, registry, cap, id, env, rd).0.records, ApproveCall(id, rd), env)
  {
    var c := ApproveCall(id, rd);
    SameConserves(s.records, c, env);
    var found := Get(s.records, id);
    if found.Some? && found.value.status == Pending && !env.safeMode {
      if IsExpired(found.value, env.now) {
        DecisionConserves(s.records, found.value, Lapsed(found.value), c, env);
      } else {
        DecisionConserves(s.records, found.value, Denied(found.value), c, env);
      }
    }
  }

  lemma ApproveConserves(s: Service, registry: Registry, cap: int, id: string, env: Env, rd: Reading)
    requires UniqueIds(s.records)
    ensures Conserves(s.records, Approve(s, registry, cap, id, env, rd).0.records, ApproveCall(id, rd), env)
  {
    var found := Get(s.records, id);
    if found.Some? && Approvable(found.value, env) {
      ApprovableIsExecuted(s, registry, cap, id, env, rd);
      ExecuteConserves(s, registry, cap, found.value, env, rd);
    } else {
      RefusalConserves(s, registry, cap, id, env, rd);
    }
  }

  lemma RejectConserves(s: Service, id: string, reason: string, env: Env)
    requires UniqueIds(s.records)
    ensures Conserves(s.records, Reject(s, id, reason, env).0.records, RejectCall(id, reason), env)
  {
    var c := RejectCall(id, reason);
    SameConserves(s.records, c, env);
    var found := Get(s.records, id);
    if found.Some? && found.value.status == Pending {
      var r := found.value;
      DecisionConserves(s.records, r, Declined(r, reason), c, env);
      if IsExpired(r, env.now) {
        DecisionConserves(s.records, r, Lapsed(r), c, env);
      }
    }
  }

  lemma CleanupConserves(records: seq<Approval>, env: Env)
    requires UniqueIds(records)
    ensures Conserves(records, Cleaned(records, env.now, env.autoclean), CleanupCall, env)
  {
    CleanedContents(records, env.now, env.autoclean);
    var after := Cleaned(records, env.now, env.autoclean);
    assert forall r, q :: r in records && q in records && q.id == r.id ==> q == r;
  }

  ghost predicate Sound(w: World) {
    UniqueIds(w.service.records) && forall r :: r in w.service.records ==> r.id in w.issued
  }

  /** One call of any kind conserves the lifecycle. */
  lemma ServeConserves(w: World, c: Call, env: Env, registry: Registry, cap: int)
    requires Sound(w) && Fresh(w, c)
    ensures Conserves(w.service.records, Serve(w, c, env, registry, cap).service.records, c, env)
    ensures Sound(Serve(w, c, env, registry, cap))
    ensures w.issued <= Serve(w, c, env, registry, cap).issued
  {
    match c
    case CreateCall(step, asked, ttl, id) =>
      SameConserves(w.service.records, c, env);
      var made := NewApproval(registry, step, asked, env.policy, env.safeMode, env.now, ttl, id);
      if made.Some? {
        UpsertContents(w.service.records, made.value);
      }
    case ApproveCall(id, rd) => ApproveConserves(w.service, registry, cap, id, env, rd);
    case RejectCall(id, reason) => RejectConserves(w.service, id, reason, env);
    case CleanupCall => CleanupConserves(w.service.records, env);
  }

  /** What a call leaves true of the worlds before and after it. */
  ghost predicate Lawful(w: World, w': World, c: Call, env: Env) {
    && Sound(w) && Sound(w') && Fresh(w, c) && w.issued <= w'.issued
    && Conserves(w.service.records, w'.service.records, c, env)
  }

  lemma {:induction false} RunsAreLawful(worlds: seq<World>, calls: seq<Call>, envs: seq<Env>, registry: Registry, cap: int, n: nat)
    requires IsRun(worlds, calls, envs, registry, cap) && n < |worlds|
    ensures Sound(worlds[n])
    ensures forall i :: 0 <= i < n ==> Lawful(worlds[i], worlds[i + 1], calls[i], envs[i])
  {
    if n > 0 {
      RunsAreLawful(worlds, calls, envs, registry, cap, n - 1);
      ServeConserves(worlds[n - 1], calls[n - 1], envs[n - 1], registry, cap);
    }
  }

  /** The id was issued, and what the store holds under it, if anything, is decided. */
  ghost predicate Settled(w: World, id: string, found: Option<Approval>) {
    id in w.issued && Get(w.service.records, id) == found && (found.Some? ==> found.value.status != Pending)
  }

  lemma SettledPreserved(w: World, w': World, c: Call, env: Env, id: string, found: Option<Approval>)
    requires Lawful(w, w', c, env) && Settled(w, id, found)
    ensures Settled(w', id, found)
  {
    GetContents(w.service.records, id);
    GetContents(w'.service.records, id);
    if found.None? {
      forall q | q in w'.service.records ensures q.id != id {
        assert Has(w.service.records, q.id) || (c.CreateCall? && q.id == c.id);
      }
    }
  }

  lemma {:induction false} StaysSettled(worlds: seq<World>, calls: seq<Call>, envs: seq<Env>, i: nat, j: nat, id: string, found: Option<Approval>)
    requires i <= j < |worlds| == |calls| + 1 == |envs| + 1
    requires forall m :: i <= m < j ==> Lawful(worlds[m], worlds[m + 1], calls[m], envs[m])
    requires Settled(worlds[i], id, found)
    ensures Settled(worlds[j], id, found)
  {
    if i < j {
      StaysSettled(worlds, calls, envs, i, j - 1, id, found);
      SettledPreserved(worlds[j - 1], worlds[j], calls[j - 1], envs[j - 1], id, found);
    }
  }

  /** Main result, with automatic cleaning on or off: over every sequence of service calls, once no
      record under an issued id is pending, what the store holds there, be it the decided record or
      nothing after cleaning, never changes, and no approve or reject of it stores or runs anything. */
  lemma DecidedIsFinal(worlds: seq<World>, calls: seq<Call>, envs: seq<Env>, registry: Registry, cap: int,
                       i: nat, j: nat, id: string, c: Call, env: Env)
    requires IsRun(worlds, calls, envs, registry, cap) && i <= j < |worlds|
    requires id in worlds[i].issued && forall r :: r in worlds[i].service.records && r.id == id ==> r.status != Pending
    requires Targets(c, id)
    ensures Get(worlds[j].service.records, id) == Get(worlds[i].service.records, id)
    ensures Serve(worlds[j], c, env, registry, cap) == worlds[j]
  {
    RunsAreLawful(worlds, calls, envs, registry, cap, i);
    RunsAreLawful(worlds, calls, envs, registry, cap, j);
    var found := Get(worlds[i].service.records, id);
    GetContents(worlds[i].service.records, id);
    StaysSettled(worlds, calls, envs, i, j, id, found);
    DecidedIsLeftAlone(worlds[j], c, env, registry, cap, id);
  }

  lemma DecidedIsLeftAlone(w: World, c: Call, env: Env, registry: Registry, cap: int, id: string)
    requires Targets(c, id) && (Get(w.service.records, id).Some? ==> Get(w.service.records, id).value.status != Pending)
    ensures Serve(w, c, env, registry, cap) == w
  {
  }

  lemma {:induction false} StaysStored(worlds: seq<World>, calls: seq<Call>, envs: seq<Env>, i: nat, j: nat, r: Approval)
    requires i <= j < |worlds| == |calls| + 1 == |envs| + 1
    requires forall m :: i <= m < j ==> Lawful(worlds[m], worlds[m + 1], calls[m], envs[m])
    requires forall m :: i <= m < j ==> envs[m].now < r.expiresAt && !Targets(calls[m], r.id)
    requires r in worlds[i].service.records && r.status == Pending
    ensures r in worlds[j].service.records
  {
    if i < j {
      StaysStored(worlds, calls, envs, i, j - 1, r);
      assert Lawful(worlds[j - 1], worlds[j], calls[j - 1], envs[j - 1]);
    }
  }

  /** A pending record is never lost: it is in the store unchanged for as long as its expiry lies
      ahead and no approve or reject call targets it, whatever else is called. */
  lemma PendingIsNeverLost(worlds: seq<World>, calls: seq<Call>, envs: seq<Env>, registry: Registry, cap: int,
                           i: nat, j: nat, r: Approval)
    requires IsRun(worlds, calls, envs, registry, cap) && i <= j < |worlds|
    requires r in worlds[i].service.records && r.status == Pending
    requires forall m :: i <= m < j ==> envs[m].now < r.expiresAt && !Targets(calls[m], r.id)
    ensures r in worlds[j].service.records
  {
    RunsAreLawful(worlds, calls, envs, registry, cap, j);
    StaysStored(worlds, calls, envs, i, j, r);
  }

  // ---------------------------------------------------------------- a claim that was never reported

  /** `approve` would get as far as claiming this record's key. */
  ghost predicate ReachesClaim(s: Service, r: Approval, env: Env) {
    && Get(s.records, r.id) == Some(r) && r.status == Pending
    && !env.safeMode && !IsExpired(r, env.now) && env.policy.CheckScopes(r.scopes).0
  }

  lemma ClaimedIsClosed(log: Log, op: Op, op': Op, cap: int)
    requires op.Start? && op'.Start? && op.key == op'.key && Accepts(log.file, op)
    ensures !Accepts(Perform(log, op, cap).file, op')
  {
    var file := Perform(log, op, cap).file;
    assert file[|file| - 1] == NewRecord(log.file, op);
  }

  /** The price of at most once: when a process stops between its claim and the skill's run, the next
      approve reports the step as done, stores the record as approved, and runs nothing. */
  lemma CrashAfterClaimLosesTheRun(s: Service, registry: Registry, cap: int, r: Approval, now: int, env: Env, rd: Reading)
    requires Accepts(s.log.file, StartOp(r, now)) && ReachesClaim(s, r, env)
    ensures var crashed := s.(log := Perform(s.log, StartOp(r, now), cap));
      var r' := Completed(r, DuplicateResult(r));
      Approve(crashed, registry, cap, r.id, env, rd)
      == (crashed.(records := Settle(s.records, r', env.autoclean)), Returned(r'))
  {
    ClaimedIsClosed(s.log, StartOp(r, now), StartOp(r, env.now), cap);
  }

  /** The same after an exception: a step whose skill is not registered escapes with its key claimed,
      so approving it again, once the skill is registered, reports success without a run. */
  lemma EscapedStepIsNeverRun(s: Service, registry: Registry, registry': Registry, cap: int, r: Approval, env: Env, env': Env,
                              rd: Reading, rd': Reading)
    requires Accepts(s.log.file, StartOp(r, env.now)) && ReachesClaim(s, r, env) && ReachesClaim(s, r, env')
    requires r.step.skillName != "" && r.step.skillName !in registry
    ensures Approve(s, registry, cap, r.id, env, rd).1 == Escaped
    ensures var escaped := Approve(s, registry, cap, r.id, env, rd).0;
      var (after, response) := Approve(escaped, registry', cap, r.id, env', rd');
      response == Returned(Completed(r, DuplicateResult(r))) && after.runs == s.runs
  {
    CrashAfterClaimLosesTheRun(s, registry', cap, r, env.now, env', rd');
  }
}
