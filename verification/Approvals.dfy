/** Approval records, their store, the making of a pending record, and the executor that gates every
    skill run. */
module Approvals {
  import opened Sequences
  import opened Ledger
  import opened Policy

  datatype ApprovalStatus = Pending | Approved | Rejected | Expired

  /** An empty skill name is a step without a skill. */
  datatype PlanStep = PlanStep(id: string, skillName: string, args: string, requiresApproval: bool)

  datatype StepResult = StepResult(stepId: string, ok: bool, text: string)

  datatype Approval = Approval(id: string, expiresAt: int, status: ApprovalStatus, step: PlanStep,
                               scopes: seq<string>, result: Option<StepResult>, error: string)

  predicate IsExpired(r: Approval, now: int) {
    r.expiresAt <= now
  }

  function ExecutionKey(r: Approval): Key {
    ApprovalExec(r.id, r.step.skillName, r.step.args)
  }

  // ---------------------------------------------------------------- the store's file

  /** The first record with this id, or -1. */
  function IndexOf(records: seq<Approval>, id: string): (i: int)
    ensures -1 <= i < |records|
    ensures i < 0 ==> forall j :: 0 <= j < |records| ==> records[j].id != id
    ensures 0 <= i ==> records[i].id == id && forall j :: 0 <= j < i ==> records[j].id != id
  {
    if records == [] then -1
    else if records[0].id == id then 0
    else
      var i := IndexOf(records[1..], id);
      if i < 0 then -1 else i + 1
  }

  function Get(records: seq<Approval>, id: string): Option<Approval> {
    var i := IndexOf(records, id);
    if i < 0 then None else Some(records[i])
  }

  function Upsert(records: seq<Approval>, r: Approval): seq<Approval> {
    var i := IndexOf(records, r.id);
    if i < 0 then records + [r] else records[i := r]
  }

  function Delete(records: seq<Approval>, id: string): seq<Approval> {
    if records == [] then []
    else
      var before, last := Delete(records[..|records| - 1], id), records[|records| - 1];
      if last.id == id then before else before + [last]
  }

  lemma {:induction false} DeleteContents(records: seq<Approval>, id: string)
    ensures forall r :: r in Delete(records, id) <==> r in records && r.id != id
    ensures Subsequence(Delete(records, id), records)
  {
    if records != [] {
      var front, last := records[..|records| - 1], records[|records| - 1];
      DeleteContents(front, id);
      assert records == front + [last];
      SubsequenceOneMore(Delete(front, id), front, last);
    }
  }

  predicate Overdue(r: Approval, now: int) {
    r.status == Pending && IsExpired(r, now)
  }

  /** Overdue records are dropped, or kept as expired when automatic cleaning is off. */
  function Cleaned(records: seq<Approval>, now: int, autoclean: bool): seq<Approval> {
    if records == [] then []
    else
      var before, last := Cleaned(records[..|records| - 1], now, autoclean), records[|records| - 1];
      if !Overdue(last, now) then before + [last]
      else if autoclean then before
      else before + [last.(status := Expired)]
  }

  function CountOverdue(records: seq<Approval>, now: int): nat {
    if records == [] then 0
    else CountOverdue(records[..|records| - 1], now) + (if Overdue(records[|records| - 1], now) then 1 else 0)
  }

  lemma {:induction false} NothingOverdueNothingChanges(records: seq<Approval>, now: int, autoclean: bool)
    requires CountOverdue(records, now) == 0
    ensures Cleaned(records, now, autoclean) == records
  {
    if records != [] {
      var front, last := records[..|records| - 1], records[|records| - 1];
      assert CountOverdue(front, now) == 0 && !Overdue(last, now);
      NothingOverdueNothingChanges(front, now, autoclean);
      assert Cleaned(records, now, autoclean) == front + [last];
    }
  }

  /** How the service stores a record it has changed. */
  function Settle(records: seq<Approval>, r: Approval, autoclean: bool): seq<Approval> {
    if autoclean && r.status != Pending then Delete(records, r.id) else Upsert(records, r)
  }

  class ApprovalStore {
    var file: seq<Approval>

    method GetRecord(id: string) returns (found: Option<Approval>)
      ensures found == Get(file, id)
    {
      for i := 0 to |file|
        invariant forall j :: 0 <= j < i ==> file[j].id != id
      {
        if file[i].id == id {
          return Some(file[i]);
        }
      }
      found := None;
    }

    method UpsertRecord(r: Approval)
      modifies this
      ensures file == Upsert(old(file), r)
    {
      var records := file;
      var updated := false;
      for i := 0 to |records|
        invariant !updated && records == file == old(file)
        invariant forall j :: 0 <= j < i ==> records[j].id != r.id
      {
        if records[i].id == r.id {
          records := records[i := r];
          updated := true;
          break;
        }
      }
      if !updated {
        records := records + [r];
      }
      file := records;
    }

    /** Afterwards exactly the records with other ids are left, in their old order. */
    method DeleteRecord(id: string)
      modifies this
      ensures forall r :: r in file <==> r in old(file) && r.id != id
      ensures Subsequence(file, old(file))
      ensures file == Delete(old(file), id)
    {
      var records: seq<Approval> := [];
      for i := 0 to |file|
        invariant file == old(file) && records == Delete(file[..i], id)
      {
        assert file[..i + 1][..i] == file[..i];
        if file[i].id != id { records := records + [file[i]]; }
      }
      assert file[..|file|] == file;
      DeleteContents(file, id);
      file := records;
    }

    method CleanupExpired(now: int, autoclean: bool) returns (changed: nat)
      modifies this
      ensures file == Cleaned(old(file), now, autoclean)
      ensures changed == CountOverdue(old(file), now)
    {
      changed := 0;
      var rewritten: seq<Approval> := [];
      for i := 0 to |file|
        invariant file == old(file)
        invariant rewritten == Cleaned(file[..i], now, autoclean)
        invariant changed == CountOverdue(file[..i], now)
      {
        assert file[..i + 1][..i] == file[..i];
        if file[i].status == Pending && file[i].expiresAt <= now {
          changed := changed + 1;
          if !autoclean {
            rewritten := rewritten + [file[i].(status := Expired)];
          }
        } else {
          rewritten := rewritten + [file[i]];
        }
      }
      assert file[..|file|] == file;
      if changed > 0 {
        file := rewritten;
      } else {
        NothingOverdueNothingChanges(file, now, autoclean);
      }
    }
  }

  // ---------------------------------------------------------------- the executor

  /** What the executor finds during one step: the policy and safe mode it reads, and the script of
      the skill run. The second pair is what `create_pending` reads when the step needs approval. */
  datatype Reading = Reading(policy: PermissionsPolicy, safeMode: bool,
                             laterPolicy: PermissionsPolicy, laterSafeMode: bool,
                             now: int, ttl: int, freshId: string, outcome: RunOutcome)

  datatype RunOutcome = RunReturns(text: string) | RunRaises(error: string)

  /** One call of a skill's `run`. */
  datatype Run = Run(skillName: string, args: string)

  datatype Verdict = NoSkill | Unregistered | ScopeDenied | SafeModeDenied | ApprovalNeeded | MayRun

  /** The gate of one step. */
  function Judge(registry: Registry, step: PlanStep, policy: PermissionsPolicy, safeMode: bool, force: bool): Verdict {
    if step.skillName == "" then NoSkill
    else if step.skillName !in registry then Unregistered
    else
      var skill := registry[step.skillName];
      if !policy.CheckScopes(skill.requiredScopes).0 then ScopeDenied
      else if skill.writes && safeMode then SafeModeDenied
      else if (step.requiresApproval || skill.writes) && !force then ApprovalNeeded
      else MayRun
  }

  /** A new pending record, or nothing when `create_pending` raises. */
  function NewApproval(registry: Registry, step: PlanStep, asked: seq<string>, policy: PermissionsPolicy,
                       safeMode: bool, now: int, ttl: int, id: string): Option<Approval>
  {
    if step.skillName == "" || safeMode || step.skillName !in registry || !registry[step.skillName].writes then None
    else
      var scopes := ApprovalScopes(step.skillName, registry[step.skillName], asked);
      if !policy.CheckScopes(scopes).0 then None
      else Some(Approval(id, now + ttl, Pending, step, scopes, None, ""))
  }

  /** The files and skill runs that executing a plan touches; `raised` once an exception escapes. */
  datatype Exec = Exec(records: seq<Approval>, runs: seq<Run>, results: seq<StepResult>, raised: bool)

  function ExecStep(x: Exec, registry: Registry, step: PlanStep, rd: Reading, force: bool): Exec {
    if x.raised then x else
    match Judge(registry, step, rd.policy, rd.safeMode, force)
    case NoSkill => x.(results := x.results + [StepResult(step.id, true, "done")])
    case Unregistered => x.(raised := true)
    case ScopeDenied => x.(results := x.results + [StepResult(step.id, false, "policy_denied")])
    case SafeModeDenied => x.(results := x.results + [StepResult(step.id, false, "safe_mode_denied")])
    case ApprovalNeeded =>
      (match NewApproval(registry, step, registry[step.skillName].requiredScopes, rd.laterPolicy,
                         rd.laterSafeMode, rd.now, rd.ttl, rd.freshId)
       case None => x.(raised := true)
       case Some(a) =>
         x.(records := Upsert(x.records, a),
            results := x.results + [StepResult(step.id, false, "approval_required:" + a.id)]))
    case MayRun =>
      var r := match rd.outcome
        case RunReturns(text) => StepResult(step.id, true, text)
        case RunRaises(error) => StepResult(step.id, false, error);
      x.(runs := x.runs + [Run(step.skillName, step.args)], results := x.results + [r])
  }

  /** The first `n` steps of a plan. */
  function ExecPlan(x: Exec, registry: Registry, steps: seq<PlanStep>, rds: seq<Reading>, n: nat, force: bool): Exec
    requires n <= |steps| == |rds|
  {
    if n == 0 then x else ExecStep(ExecPlan(x, registry, steps, rds, n - 1, force), registry, steps[n - 1], rds[n - 1], force)
  }

  predicate Writes(registry: Registry, run: Run) {
    run.skillName in registry && registry[run.skillName].writes
  }

  /** A plan executed without force never runs a write skill, whatever its length and whatever the
      policy and safe mode do between its steps. */
  lemma {:induction false} UnforcedPlansNeverWrite(x: Exec, registry: Registry, steps: seq<PlanStep>, rds: seq<Reading>, n: nat)
    requires n <= |steps| == |rds|
    ensures var y := ExecPlan(x, registry, steps, rds, n, false);
      |x.runs| <= |y.runs| && forall i :: |x.runs| <= i < |y.runs| ==> !Writes(registry, y.runs[i])
  {
    if n > 0 {
      UnforcedPlansNeverWrite(x, registry, steps, rds, n - 1);
    }
  }

  class Executor {
    /** Every call of a skill's `run`, in order. */
    var runs: seq<Run>

    /** Runs the plan step by step, appending a result for each; an escaping exception ends it. */
    method ExecutePlan(store: ApprovalStore, registry: Registry, steps: seq<PlanStep>, rds: seq<Reading>, force: bool)
      returns (results: seq<StepResult>, raised: bool)
      requires |steps| == |rds|
      modifies this, store
      ensures Exec(store.file, runs, results, raised)
           == ExecPlan(Exec(old(store.file), old(runs), [], false), registry, steps, rds, |steps|, force)
    {
      results, raised := [], false;
      for n := 0 to |steps|
        invariant Exec(store.file, runs, results, raised)
               == ExecPlan(Exec(old(store.file), old(runs), [], false), registry, steps, rds, n, force)
      {
        if !raised {
          var step, rd := steps[n], rds[n];
          match Judge(registry, step, rd.policy, rd.safeMode, force) {
            case NoSkill => results := results + [StepResult(step.id, true, "done")];
            case Unregistered => raised := true;
            case ScopeDenied => results := results + [StepResult(step.id, false, "policy_denied")];
            case SafeModeDenied => results := results + [StepResult(step.id, false, "safe_mode_denied")];
            case ApprovalNeeded =>
              var a := NewApproval(registry, step, registry[step.skillName].requiredScopes, rd.laterPolicy,
                                   rd.laterSafeMode, rd.now, rd.ttl, rd.freshId);
              if a.None? {
                raised := true;
              } else {
                store.UpsertRecord(a.value);
                results := results + [StepResult(step.id, false, "approval_required:" + a.value.id)];
              }
            case MayRun =>
              runs := runs + [Run(step.skillName, step.args)];
              match rd.outcome {
                case RunReturns(text) => results := results + [StepResult(step.id, true, text)];
                case RunRaises(error) => results := results + [StepResult(step.id, false, error)];
              }
          }
        }
      }
    }
  }
}
