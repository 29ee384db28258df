/** The one-step-at-a-time system and the atomic service calls are the same program: a process left
    alone leaves the files exactly as the corresponding call does. */
module Atomicity {
  import opened Sequences
  import opened Ledger
  import opened Policy
  import opened Approvals
  import opened Interleaving
  import Service = ApprovalService

  /** The world after `fuel` consecutive steps of one process. */
  function Alone(w: World, now: nat, pc: Proc, ch: Choice, registry: Registry, cap: int, fuel: nat): World
    decreases fuel
  {
    if fuel == 0 then w
    else
      var m := Advance(w, now, pc, ch, registry, cap);
      Alone(m.world, now + 1, m.proc, ch, registry, cap, fuel - 1)
  }

  /** The files of a world as the service sees them. */
  function Files(w: World, cap: int): Service.Service {
    Service.Service(w.records, Log(Window(w.ledger, cap), w.ledger), [])
  }

  predicate SameFiles(w: World, s: Service.Service) {
    (w.records, w.ledger) == (s.records, s.log.history)
  }

  function EnvOf(w: World): Service.Env {
    Service.Env(w.clock, w.safeMode, w.policy, w.autoclean)
  }

  function ReadingOf(w: World, ch: Choice): Reading {
    Reading(w.policy, w.safeMode, w.policy, w.safeMode, w.clock, ch.ttl, ch.freshId, ch.outcome)
  }

  lemma {:induction false} ReadyStays(w: World, now: nat, ch: Choice, registry: Registry, cap: int, fuel: nat)
    ensures Alone(w, now, Ready, ch, registry, cap, fuel) == w
    decreases fuel
  {
    if fuel > 0 {
      ReadyStays(w, now + 1, ch, registry, cap, fuel - 1);
    }
  }

  lemma SettlesAlone(w: World, now: nat, r: Approval, ch: Choice, registry: Registry, cap: int, fuel: nat)
    requires fuel >= 1
    ensures Alone(w, now, Settling(r), ch, registry, cap, fuel) == w.(records := Settle(w.records, r, w.autoclean))
  {
    ReadyStays(w.(records := Settle(w.records, r, w.autoclean)), now + 1, ch, registry, cap, fuel - 1);
  }

  lemma MarksAlone(w: World, now: nat, r: Approval, result: StepResult, ch: Choice, registry: Registry, cap: int, fuel: nat)
    requires fuel >= 2
    ensures var w' := Append(w, Service.MarkOp(r, result, w.clock), cap);
      Alone(w, now, Marking(r, result), ch, registry, cap, fuel)
      == w'.(records := Settle(w.records, Service.Completed(r, result), w.autoclean))
  {
    SettlesAlone(Append(w, Service.MarkOp(r, result, w.clock), cap), now + 1, Service.Completed(r, result), ch, registry, cap, fuel - 1);
  }

  /** What the files are once a claimed step has produced its result, or raised. */
  function AfterForced(w: World, r: Approval, x: Exec, cap: int): World {
    if x.raised || x.results == [] then w
    else Append(w, Service.MarkOp(r, x.results[0], w.clock), cap)
           .(records := Settle(w.records, Service.Completed(r, x.results[0]), w.autoclean))
  }

  function Forced(w: World, r: Approval, ch: Choice, registry: Registry): Exec {
    ExecStep(Exec(w.records, [], [], false), registry, r.step, ReadingOf(w, ch), true)
  }

  lemma RunsAlone(w: World, now: nat, r: Approval, t: Times, ch: Choice, registry: Registry, cap: int, fuel: nat)
    requires fuel >= 3
    requires Judge(registry, r.step, w.policy, w.safeMode, true).MayRun?
    ensures Alone(w, now, Running(r, t), ch, registry, cap, fuel) == AfterForced(w, r, Forced(w, r, ch, registry), cap)
  {
    MarksAlone(w, now + 1, r, Forced(w, r, ch, registry).results[0], ch, registry, cap, fuel - 1);
  }

  lemma ChecksSafeModeAlone(w: World, now: nat, r: Approval, t: Times, ch: Choice, registry: Registry, cap: int, fuel: nat)
    requires fuel >= 4
    requires var v := Judge(registry, r.step, w.policy, w.safeMode, true); v.MayRun? || v.SafeModeDenied?
    ensures Alone(w, now, ExecSafeMode(r, t), ch, registry, cap, fuel) == AfterForced(w, r, Forced(w, r, ch, registry), cap)
  {
    if Judge(registry, r.step, w.policy, w.safeMode, true).MayRun? {
      RunsAlone(w, now + 1, r, t.(safe := now), ch, registry, cap, fuel - 1);
    } else {
      MarksAlone(w, now + 1, r, Forced(w, r, ch, registry).results[0], ch, registry, cap, fuel - 1);
    }
  }

  /** The executor's three steps, left alone, are one forced step. */
  lemma ExecutesAlone(w: World, now: nat, r: Approval, t: Times, ch: Choice, registry: Registry, cap: int, fuel: nat)
    requires fuel >= 5
    ensures Alone(w, now, ExecScopes(r, t), ch, registry, cap, fuel) == AfterForced(w, r, Forced(w, r, ch, registry), cap)
  {
    var v := Judge(registry, r.step, w.policy, w.safeMode, true);
    if v.Unregistered? {
      ReadyStays(w, now + 1, ch, registry, cap, fuel - 1);
    } else if v.NoSkill? || v.ScopeDenied? {
      MarksAlone(w, now + 1, r, Forced(w, r, ch, registry).results[0], ch, registry, cap, fuel - 1);
    } else {
      ChecksSafeModeAlone(w, now + 1, r, t.(scopes := now), ch, registry, cap, fuel - 1);
    }
  }

  lemma WindowOfAppend(ledger: seq<Record>, r: Record, cap: int)
    ensures Window(Window(ledger, cap) + [r], cap) == Window(ledger + [r], cap)
  {
    if cap > 0 { LastNAbsorbs(ledger, [r], cap); }
  }

  lemma ClaimOpens(w: World, op: Op, cap: int)
    requires Open(w, op, cap)
    ensures Perform(Files(w, cap).log, op, cap) == Files(Append(w, op, cap), cap).log
  {
    WindowOfAppend(w.ledger, NewRecord(Window(w.ledger, cap), op), cap);
  }

  lemma GrantedAlone(w: World, now: nat, r: Approval, t: Times, ch: Choice, registry: Registry, cap: int, fuel: nat)
    requires fuel >= 6 && Open(w, Service.StartOp(r, w.clock), cap)
    ensures SameFiles(Alone(w, now, Claiming(r, t), ch, registry, cap, fuel),
                      Service.Execute(Files(w, cap), registry, cap, r, EnvOf(w), ReadingOf(w, ch)).0)
  {
    var op := Service.StartOp(r, w.clock);
    var w' := Append(w, op, cap);
    ClaimOpens(w, op, cap);
    assert Alone(w, now, Claiming(r, t), ch, registry, cap, fuel) == Alone(w', now + 1, ExecScopes(r, t), ch, registry, cap, fuel - 1);
    ExecutesAlone(w', now + 1, r, t, ch, registry, cap, fuel - 1);
    ExecutedFiles(w, r, ch, registry, cap, Forced(w', r, ch, registry));
  }

  /** The same execution, on the files of the world before the claim. */
  lemma ExecutedFiles(w: World, r: Approval, ch: Choice, registry: Registry, cap: int, x: Exec)
    requires var op := Service.StartOp(r, w.clock); Open(w, op, cap) && x == Forced(Append(w, op, cap), r, ch, registry)
    requires Perform(Files(w, cap).log, Service.StartOp(r, w.clock), cap) == Files(Append(w, Service.StartOp(r, w.clock), cap), cap).log
    ensures SameFiles(AfterForced(Append(w, Service.StartOp(r, w.clock), cap), r, x, cap),
                      Service.Execute(Files(w, cap), registry, cap, r, EnvOf(w), ReadingOf(w, ch)).0)
  {
  }

  lemma RefusedAlone(w: World, now: nat, r: Approval, t: Times, ch: Choice, registry: Registry, cap: int, fuel: nat)
    requires fuel >= 6 && !Open(w, Service.StartOp(r, w.clock), cap)
    ensures SameFiles(Alone(w, now, Claiming(r, t), ch, registry, cap, fuel),
                      Service.Execute(Files(w, cap), registry, cap, r, EnvOf(w), ReadingOf(w, ch)).0)
  {
    SettlesAlone(w, now + 1, Service.Completed(r, Service.DuplicateResult(r)), ch, registry, cap, fuel - 1);
  }

  lemma ClaimsAlone(w: World, now: nat, r: Approval, t: Times, ch: Choice, registry: Registry, cap: int, fuel: nat)
    requires fuel >= 6
    ensures SameFiles(Alone(w, now, Claiming(r, t), ch, registry, cap, fuel),
                      Service.Execute(Files(w, cap), registry, cap, r, EnvOf(w), ReadingOf(w, ch)).0)
  {
    if Open(w, Service.StartOp(r, w.clock), cap) {
      GrantedAlone(w, now, r, t, ch, registry, cap, fuel);
    } else {
      RefusedAlone(w, now, r, t, ch, registry, cap, fuel);
    }
  }

  lemma AuthorisesAlone(w: World, now: nat, r: Approval, t: Times, ch: Choice, registry: Registry, cap: int, fuel: nat)
    requires fuel >= 7
    ensures SameFiles(Alone(w, now, CheckingPolicy(r, t), ch, registry, cap, fuel),
                      Service.Authorise(Files(w, cap), registry, cap, r, EnvOf(w), ReadingOf(w, ch)).0)
  {
    if w.policy.CheckScopes(r.scopes).0 {
      ClaimsAlone(w, now + 1, r, t, ch, registry, cap, fuel - 1);
    } else {
      SettlesAlone(w, now + 1, Service.Denied(r), ch, registry, cap, fuel - 1);
    }
  }

  lemma ApprovesPendingAlone(w: World, now: nat, r: Approval, t: Times, ch: Choice, registry: Registry, cap: int, fuel: nat)
    requires fuel >= 8
    ensures SameFiles(Alone(w, now, CheckingExpiry(r, t), ch, registry, cap, fuel),
                      Service.ApprovePending(Files(w, cap), registry, cap, r, EnvOf(w), ReadingOf(w, ch)).0)
  {
    if IsExpired(r, w.clock) {
      SettlesAlone(w, now + 1, Service.Lapsed(r), ch, registry, cap, fuel - 1);
    } else {
      AuthorisesAlone(w, now + 1, r, t.(expiry := now), ch, registry, cap, fuel - 1);
    }
  }

  lemma ChecksAlone(w: World, now: nat, r: Approval, t: Times, ch: Choice, registry: Registry, cap: int, fuel: nat)
    requires fuel >= 9
    ensures var w' := Alone(w, now, CheckingSafeMode(r, t), ch, registry, cap, fuel);
      if w.safeMode then w' == w
      else SameFiles(w', Service.ApprovePending(Files(w, cap), registry, cap, r, EnvOf(w), ReadingOf(w, ch)).0)
  {
    if w.safeMode {
      ReadyStays(w, now + 1, ch, registry, cap, fuel - 1);
    } else {
      ApprovesPendingAlone(w, now + 1, r, t, ch, registry, cap, fuel - 1);
    }
  }

  /** Main result: an approve that nobody interrupts is the atomic call. */
  lemma ApproveAloneIsAtomic(w: World, now: nat, id: string, ch: Choice, registry: Registry, cap: int, fuel: nat)
    requires fuel >= 10
    ensures SameFiles(Alone(w, now, Approving(id), ch, registry, cap, fuel),
                      Service.Approve(Files(w, cap), registry, cap, id, EnvOf(w), ReadingOf(w, ch)).0)
  {
    var found := Get(w.records, id);
    if found.Some? && found.value.status == Pending {
      ChecksAlone(w, now + 1, found.value, ZERO.(loaded := now), ch, registry, cap, fuel - 1);
    } else {
      ReadyStays(w, now + 1, ch, registry, cap, fuel - 1);
    }
  }

  // ---------------------------------------------------------------- the skill runs

  /** The skill run that an event records. */
  function RunOf(e: Option<Event>): seq<Run> {
    if e.Some? && e.value.Finished? && e.value.ran then [Run(e.value.step.skillName, e.value.step.args)] else []
  }

  /** The skill runs of `fuel` consecutive steps of one process. */
  function Ran(w: World, now: nat, pc: Proc, ch: Choice, registry: Registry, cap: int, fuel: nat): seq<Run>
    decreases fuel
  {
    if fuel == 0 then []
    else
      var m := Advance(w, now, pc, ch, registry, cap);
      RunOf(m.event) + Ran(m.world, now + 1, m.proc, ch, registry, cap, fuel - 1)
  }

  lemma {:induction false} RestRunsNothing(w: World, now: nat, pc: Proc, ch: Choice, registry: Registry, cap: int, fuel: nat)
    requires pc.Ready? || pc.Settling? || pc.Marking?
    ensures Ran(w, now, pc, ch, registry, cap, fuel) == []
    decreases fuel
  {
    if fuel > 0 {
      var m := Advance(w, now, pc, ch, registry, cap);
      RestRunsNothing(m.world, now + 1, m.proc, ch, registry, cap, fuel - 1);
    }
  }

  lemma StepRan(w: World, now: nat, pc: Proc, ch: Choice, registry: Registry, cap: int, fuel: nat, m: Moved)
    requires fuel > 0 && m == Advance(w, now, pc, ch, registry, cap)
    ensures Ran(w, now, pc, ch, registry, cap, fuel) == RunOf(m.event) + Ran(m.world, now + 1, m.proc, ch, registry, cap, fuel - 1)
  {
  }

  lemma SafeModeRan(w: World, now: nat, r: Approval, t: Times, ch: Choice, registry: Registry, cap: int, fuel: nat)
    requires fuel >= 2 && r.step.skillName in registry
    ensures Ran(w, now, ExecSafeMode(r, t), ch, registry, cap, fuel)
      == if registry[r.step.skillName].writes && w.safeMode then [] else [Run(r.step.skillName, r.step.args)]
  {
    var m := ForcedStep(w, now, ExecSafeMode(r, t), ch, registry);
    StepRan(w, now, ExecSafeMode(r, t), ch, registry, cap, fuel, m);
    if m.proc.Marking? {
      RestRunsNothing(w, now + 1, m.proc, ch, registry, cap, fuel - 1);
    } else {
      var m' := ForcedStep(w, now + 1, m.proc, ch, registry);
      StepRan(w, now + 1, m.proc, ch, registry, cap, fuel - 1, m');
      RestRunsNothing(w, now + 2, m'.proc, ch, registry, cap, fuel - 2);
    }
  }

  lemma ForcedRan(w: World, now: nat, r: Approval, t: Times, ch: Choice, registry: Registry, cap: int, fuel: nat)
    requires fuel >= 3
    ensures Ran(w, now, ExecScopes(r, t), ch, registry, cap, fuel)
      == if Service.Runnable(registry, r.step, ReadingOf(w, ch)) then [Run(r.step.skillName, r.step.args)] else []
  {
    var m := ForcedStep(w, now, ExecScopes(r, t), ch, registry);
    StepRan(w, now, ExecScopes(r, t), ch, registry, cap, fuel, m);
    if m.proc.ExecSafeMode? {
      SafeModeRan(w, now + 1, r, m.proc.t, ch, registry, cap, fuel - 1);
    } else {
      RestRunsNothing(w, now + 1, m.proc, ch, registry, cap, fuel - 1);
    }
  }

  lemma GrantedRan(w: World, now: nat, r: Approval, t: Times, ch: Choice, registry: Registry, cap: int, fuel: nat)
    requires fuel >= 4 && Open(w, Service.StartOp(r, w.clock), cap)
    ensures Ran(w, now, Claiming(r, t), ch, registry, cap, fuel)
      == if Service.Runnable(registry, r.step, ReadingOf(w, ch)) then [Run(r.step.skillName, r.step.args)] else []
  {
    var w' := Append(w, Service.StartOp(r, w.clock), cap);
    StepRan(w, now, Claiming(r, t), ch, registry, cap, fuel, Quiet(w', ExecScopes(r, t)));
    ForcedRan(w', now + 1, r, t, ch, registry, cap, fuel - 1);
  }

  lemma RefusedRan(w: World, now: nat, r: Approval, t: Times, ch: Choice, registry: Registry, cap: int, fuel: nat)
    requires fuel >= 4 && !Open(w, Service.StartOp(r, w.clock), cap)
    ensures Ran(w, now, Claiming(r, t), ch, registry, cap, fuel) == []
  {
    var pc := Settling(Service.Completed(r, Service.DuplicateResult(r)));
    StepRan(w, now, Claiming(r, t), ch, registry, cap, fuel, Quiet(w, pc));
    RestRunsNothing(w, now + 1, pc, ch, registry, cap, fuel - 1);
  }

  lemma ClaimRan(w: World, now: nat, r: Approval, t: Times, ch: Choice, registry: Registry, cap: int, fuel: nat)
    requires fuel >= 4
    ensures Ran(w, now, Claiming(r, t), ch, registry, cap, fuel)
      == Service.Execute(Files(w, cap), registry, cap, r, EnvOf(w), ReadingOf(w, ch)).0.runs
  {
    Service.ExecuteRunsExactlyWhenAllowed(Files(w, cap), registry, cap, r, EnvOf(w), ReadingOf(w, ch));
    if Open(w, Service.StartOp(r, w.clock), cap) {
      GrantedRan(w, now, r, t, ch, registry, cap, fuel);
    } else {
      RefusedRan(w, now, r, t, ch, registry, cap, fuel);
    }
  }

  lemma AuthoriseRan(w: World, now: nat, r: Approval, t: Times, ch: Choice, registry: Registry, cap: int, fuel: nat)
    requires fuel >= 5
    ensures Ran(w, now, CheckingPolicy(r, t), ch, registry, cap, fuel)
      == Service.Authorise(Files(w, cap), registry, cap, r, EnvOf(w), ReadingOf(w, ch)).0.runs
  {
    var m := ApproveStep(w, now, CheckingPolicy(r, t), cap);
    StepRan(w, now, CheckingPolicy(r, t), ch, registry, cap, fuel, m);
    if m.proc.Claiming? {
      ClaimRan(w, now + 1, r, t, ch, registry, cap, fuel - 1);
    } else {
      RestRunsNothing(w, now + 1, m.proc, ch, registry, cap, fuel - 1);
    }
  }

  lemma ApprovePendingRan(w: World, now: nat, r: Approval, t: Times, ch: Choice, registry: Registry, cap: int, fuel: nat)
    requires fuel >= 7
    ensures Ran(w, now, CheckingSafeMode(r, t), ch, registry, cap, fuel)
      == if w.safeMode then []
         else Service.ApprovePending(Files(w, cap), registry, cap, r, EnvOf(w), ReadingOf(w, ch)).0.runs
  {
    var m := ApproveStep(w, now, CheckingSafeMode(r, t), cap);
    StepRan(w, now, CheckingSafeMode(r, t), ch, registry, cap, fuel, m);
    if w.safeMode {
      RestRunsNothing(w, now + 1, m.proc, ch, registry, cap, fuel - 1);
    } else {
      var m' := ApproveStep(w, now + 1, m.proc, cap);
      StepRan(w, now + 1, m.proc, ch, registry, cap, fuel - 1, m');
      if IsExpired(r, w.clock) {
        RestRunsNothing(w, now + 2, m'.proc, ch, registry, cap, fuel - 2);
      } else {
        AuthoriseRan(w, now + 2, r, m'.proc.t, ch, registry, cap, fuel - 2);
      }
    }
  }

  /** Main result: and it runs exactly the skills that the atomic call runs. */
  lemma ApproveAloneRunsTheSame(w: World, now: nat, id: string, ch: Choice, registry: Registry, cap: int, fuel: nat)
    requires fuel >= 8
    ensures Ran(w, now, Approving(id), ch, registry, cap, fuel)
      == Service.Approve(Files(w, cap), registry, cap, id, EnvOf(w), ReadingOf(w, ch)).0.runs
  {
    var m := ApproveStep(w, now, Approving(id), cap);
    StepRan(w, now, Approving(id), ch, registry, cap, fuel, m);
    if m.proc.Ready? {
      RestRunsNothing(w, now + 1, m.proc, ch, registry, cap, fuel - 1);
    } else {
      ApprovePendingRan(w, now + 1, m.proc.r, m.proc.t, ch, registry, cap, fuel - 1);
    }
  }

  // ---------------------------------------------------------------- reject

  lemma DeclinesAlone(w: World, now: nat, r: Approval, reason: string, ch: Choice, registry: Registry, cap: int, fuel: nat)
    requires fuel >= 2
    ensures Alone(w, now, RejectLoaded(r, reason), ch, registry, cap, fuel)
      == w.(records := Settle(w.records, if IsExpired(r, w.clock) then Service.Lapsed(r) else Service.Declined(r, reason), w.autoclean))
  {
    SettlesAlone(w, now + 1, if IsExpired(r, w.clock) then Service.Lapsed(r) else Service.Declined(r, reason), ch, registry, cap, fuel - 1);
  }

  lemma LoadedRejectIsAtomic(w: World, now: nat, r: Approval, reason: string, ch: Choice, registry: Registry, cap: int, fuel: nat)
    requires fuel >= 2 && Get(w.records, r.id) == Some(r) && r.status == Pending
    ensures SameFiles(Alone(w, now, RejectLoaded(r, reason), ch, registry, cap, fuel),
                      Service.Reject(Files(w, cap), r.id, reason, EnvOf(w)).0)
  {
    DeclinesAlone(w, now, r, reason, ch, registry, cap, fuel);
  }

  lemma RejectAloneIsAtomic(w: World, now: nat, id: string, reason: string, ch: Choice, registry: Registry, cap: int, fuel: nat)
    requires fuel >= 3
    ensures SameFiles(Alone(w, now, Rejecting(id, reason), ch, registry, cap, fuel),
                      Service.Reject(Files(w, cap), id, reason, EnvOf(w)).0)
  {
    var found := Get(w.records, id);
    if found.Some? && found.value.status == Pending {
      LoadedRejectIsAtomic(w, now + 1, found.value, reason, ch, registry, cap, fuel - 1);
    } else {
      ReadyStays(w, now + 1, ch, registry, cap, fuel - 1);
    }
  }
}
