/** The whole system, interleaved: approvers, rejecters, chat plans, rule evaluations and scheduled
    jobs take one step at a time against the shared files, switches change between any two steps,
    and any process may crash, losing its memory and nothing else. */
module Interleaving {
  import opened Sequences
  import opened Ledger
  import opened Policy
  import opened Approvals
  import Rules = RuleEngine
  import Service = ApprovalService
  import Guard

  /** Everything outside the processes: clock, switches and the two files. The ledger is given by
      its full history; readers see its retained window. */
  datatype World = World(clock: int, safeMode: bool, policy: PermissionsPolicy, autoclean: bool,
                         records: seq<Approval>, ledger: seq<Record>)

  /** When, as positions in the sequence of worlds, an approver made its observations. */
  datatype Times = Times(loaded: nat, expiry: nat, scopes: nat, safe: nat)

  /** One rule evaluation: the policy its engine loaded, the first matching item, and its progress. */
  datatype Evaluation = Evaluation(ruleId: string, itemId: string, policy: PermissionsPolicy, actions: seq<Rules.RuleAct>,
                                   limit: int, index: nat, executed: nat)

  datatype Proc =
    | Ready
    // approve
    | Approving(id: string)
    | CheckingSafeMode(r: Approval, t: Times)
    | CheckingExpiry(r: Approval, t: Times)
    | CheckingPolicy(r: Approval, t: Times)
    | Claiming(r: Approval, t: Times)
    | ExecScopes(r: Approval, t: Times)
    | ExecSafeMode(r: Approval, t: Times)
    | Running(r: Approval, t: Times)
    | Marking(r: Approval, result: StepResult)
    | Settling(settled: Approval)
    // reject
    | Rejecting(id: string, reason: string)
    | RejectLoaded(r: Approval, reason: string)
    // a plan executed without force
    | ChatScopes(steps: seq<PlanStep>)
    | ChatSafeMode(steps: seq<PlanStep>)
    | ChatCreate(steps: seq<PlanStep>)
    | ChatRun(steps: seq<PlanStep>)
    // rule evaluation
    | EvalAction(e: Evaluation)
    | EvalClaim(e: Evaluation)
    | EvalPolicy(e: Evaluation)
    | EvalCreate(e: Evaluation)
    | EvalMark(e: Evaluation, created: bool, escapes: bool)
    // scheduled job
    | JobClaim(key: Key)
    | JobOwns(key: Key)
    | JobMark(key: Key, ok: bool)

  /** What a step may be handed from outside: a skill's outcome, a fresh id, a time to live. */
  datatype Choice = Choice(outcome: RunOutcome, freshId: string, ttl: int)

  datatype Event =
    /** A step finished; `ran` if its skill's `run` was called. */
    | Finished(step: PlanStep, ran: bool, ok: bool, force: bool, approval: Option<Approval>, t: Times, at: nat)
    /** A rule evaluation stored a new pending approval under this key. */
    | Proposed(key: Key)
    | JobDone(key: Key, ok: bool)

  datatype Sys = Sys(worlds: seq<World>, procs: map<nat, Proc>, trace: seq<Event>)

  datatype Action =
    | Environment(delta: nat, safeMode: bool, policy: PermissionsPolicy, autoclean: bool)
    | Cleanup
    | Begin(pid: nat, request: Proc)
    | Step(pid: nat, choice: Choice)
    | Crash(pid: nat)

  function At(s: Sys, p: nat): Proc {
    if p in s.procs then s.procs[p] else Ready
  }

  function Now(s: Sys): World
    requires s.worlds != []
  {
    s.worlds[|s.worlds| - 1]
  }

  const ZERO := Times(0, 0, 0, 0)

  /** The result of one process step: the new world, the process, and what it did. */
  datatype Moved = Moved(world: World, proc: Proc, event: Option<Event>)

  function Quiet(w: World, pc: Proc): Moved {
    Moved(w, pc, None)
  }

  function Append(w: World, op: Op, cap: int): World {
    w.(ledger := w.ledger + [NewRecord(Window(w.ledger, cap), op)])
  }

  predicate Open(w: World, op: Op, cap: int) {
    Accepts(Window(w.ledger, cap), op)
  }

  function Done(r: Approval, t: Times, ran: bool, result: StepResult, now: nat): Option<Event> {
    Some(Finished(r.step, ran, result.ok, true, Some(r), t, now))
  }

  /** `approve`, one observation or file access per step; `now` is the position of world `w`. */
  function ApproveStep(w: World, now: nat, pc: Proc, cap: int): Moved {
    match pc
    case Approving(id) =>
      var found := Get(w.records, id);
      Quiet(w, if found.Some? && found.value.status == Pending
               then CheckingSafeMode(found.value, ZERO.(loaded := now)) else Ready)
    case CheckingSafeMode(r, t) => Quiet(w, if w.safeMode then Ready else CheckingExpiry(r, t))
    case CheckingExpiry(r, t) =>
      Quiet(w, if IsExpired(r, w.clock) then Settling(Service.Lapsed(r)) else CheckingPolicy(r, t.(expiry := now)))
    case CheckingPolicy(r, t) =>
      Quiet(w, if w.policy.CheckScopes(r.scopes).0 then Claiming(r, t) else Settling(Service.Denied(r)))
    case Claiming(r, t) =>
      var op := Service.StartOp(r, w.clock);
      if Open(w, op, cap) then Quiet(Append(w, op, cap), ExecScopes(r, t))
      else Quiet(w, Settling(Service.Completed(r, Service.DuplicateResult(r))))
    case Marking(r, result) =>
      Quiet(Append(w, Service.MarkOp(r, result, w.clock), cap), Settling(Service.Completed(r, result)))
    case Settling(r) => Quiet(w.(records := Settle(w.records, r, w.autoclean)), Ready)
    case _ => Quiet(w, pc)
  }

  /** The executor's handling of the one approved step, with force. */
  function ForcedStep(w: World, now: nat, pc: Proc, ch: Choice, registry: Registry): Moved {
    match pc
    case ExecScopes(r, t) =>
      var name := r.step.skillName;
      if name == "" then
        var result := StepResult(r.step.id, true, "done");
        Moved(w, Marking(r, result), Done(r, t, false, result, now))
      else if name !in registry then Quiet(w, Ready)
      else if !w.policy.CheckScopes(registry[name].requiredScopes).0 then
        Quiet(w, Marking(r, StepResult(r.step.id, false, "policy_denied")))
      else Quiet(w, ExecSafeMode(r, t.(scopes := now)))
    case ExecSafeMode(r, t) =>
      if r.step.skillName in registry && registry[r.step.skillName].writes && w.safeMode then
        Quiet(w, Marking(r, StepResult(r.step.id, false, "safe_mode_denied")))
      else Quiet(w, Running(r, t.(safe := now)))
    case Running(r, t) =>
      var result := match ch.outcome
        case RunReturns(text) => StepResult(r.step.id, true, text)
        case RunRaises(error) => StepResult(r.step.id, false, error);
      Moved(w, Marking(r, result), Done(r, t, true, result, now))
    case _ => Quiet(w, pc)
  }

  function RejectStep(w: World, pc: Proc): Moved {
    match pc
    case Rejecting(id, reason) =>
      var found := Get(w.records, id);
      Quiet(w, if found.Some? && found.value.status == Pending then RejectLoaded(found.value, reason) else Ready)
    case RejectLoaded(r, reason) =>
      Quiet(w, Settling(if IsExpired(r, w.clock) then Service.Lapsed(r) else Service.Declined(r, reason)))
    case _ => Quiet(w, pc)
  }

  /** A plan executed without force; an escaping exception ends it. */
  function ChatStep(w: World, now: nat, pc: Proc, ch: Choice, registry: Registry): Moved {
    match pc
    case ChatScopes(steps) =>
      if steps == [] then Quiet(w, Ready)
      else
        var name := steps[0].skillName;
        if name == "" then
          Moved(w, ChatScopes(steps[1..]), Some(Finished(steps[0], false, true, false, None, ZERO, now)))
        else if name !in registry then Quiet(w, Ready)
        else if !w.policy.CheckScopes(registry[name].requiredScopes).0 then Quiet(w, ChatScopes(steps[1..]))
        else Quiet(w, ChatSafeMode(steps))
    case ChatSafeMode(steps) =>
      if steps == [] || steps[0].skillName !in registry then Quiet(w, Ready)
      else
        var skill := registry[steps[0].skillName];
        if skill.writes && w.safeMode then Quiet(w, ChatScopes(steps[1..]))
        else if steps[0].requiresApproval || skill.writes then Quiet(w, ChatCreate(steps))
        else Quiet(w, ChatRun(steps))
    case ChatCreate(steps) =>
      if steps == [] || steps[0].skillName !in registry then Quiet(w, Ready)
      else
        (match NewApproval(registry, steps[0], registry[steps[0].skillName].requiredScopes, w.policy, w.safeMode,
                           w.clock, ch.ttl, ch.freshId)
         case None => Quiet(w, Ready)
         case Some(a) => Quiet(w.(records := Upsert(w.records, a)), ChatScopes(steps[1..])))
    case ChatRun(steps) =>
      if steps == [] then Quiet(w, Ready)
      else Moved(w, ChatScopes(steps[1..]),
                 Some(Finished(steps[0], true, ch.outcome.RunReturns?, false, None, ZERO, now)))
    case _ => Quiet(w, pc)
  }

  function Proposal(e: Evaluation): (act: Rules.RuleAct)
    ensures act.Propose?
  {
    if e.index < |e.actions| && e.actions[e.index].Propose? then e.actions[e.index] else Rules.Propose("", "", "")
  }

  function StartProposal(e: Evaluation, now: int): Op {
    Rules.StartProposal(e.ruleId, e.index, e.itemId, Proposal(e), now)
  }

  function MarkProposal(e: Evaluation, created: bool, now: int): Op {
    Rules.MarkProposal(e.ruleId, e.index, e.itemId, Proposal(e), created, now)
  }

  function ProposalKey(e: Evaluation): Key {
    Rules.ProposalKey(e.ruleId, e.index, e.itemId, Proposal(e))
  }

  function Skip(e: Evaluation): Proc {
    EvalAction(e.(index := e.index + 1))
  }

  /** The action loop of one rule evaluation. */
  function EvalStep(w: World, pc: Proc, ch: Choice, registry: Registry, cap: int): Moved {
    match pc
    case EvalAction(e) =>
      if e.index >= |e.actions| || e.executed >= e.limit then Quiet(w, Ready)
      else if e.actions[e.index].Notify? then
        Quiet(w, if ch.outcome.RunRaises? then Ready else EvalAction(e.(index := e.index + 1, executed := e.executed + 1)))
      else if w.safeMode then Quiet(w, Skip(e))
      else Quiet(w, EvalClaim(e))
    case EvalClaim(e) =>
      var op := StartProposal(e, w.clock);
      if Open(w, op, cap) then Quiet(Append(w, op, cap), EvalPolicy(e)) else Quiet(w, Skip(e))
    case EvalPolicy(e) =>
      Quiet(w, if Rules.PolicyAllows(registry, e.policy, Proposal(e)) then EvalCreate(e) else EvalMark(e, false, false))
    case EvalCreate(e) =>
      (match NewApproval(registry, Rules.ProposedStep(Proposal(e)), RuleScopes(registry, Proposal(e).skillName),
                         w.policy, w.safeMode, w.clock, ch.ttl, ch.freshId)
       case None => Quiet(w, EvalMark(e, false, true))
       case Some(a) =>
         Moved(w.(records := Upsert(w.records, a)), EvalMark(e, true, false), Some(Proposed(ProposalKey(e)))))
    case EvalMark(e, created, escapes) =>
      Quiet(Append(w, MarkProposal(e, created, w.clock), cap),
            if escapes then Ready
            else if created then EvalAction(e.(index := e.index + 1, executed := e.executed + 1))
            else Skip(e))
    case _ => Quiet(w, pc)
  }

  function JobStep(w: World, pc: Proc, ch: Choice, cap: int): Moved {
    match pc
    case JobClaim(k) =>
      var op := Start(k, JobRunKind, w.clock, None, map[]);
      if Open(w, op, cap) then Quiet(Append(w, op, cap), JobOwns(k)) else Quiet(w, Ready)
    case JobOwns(k) =>
      var ok := ch.outcome.RunReturns?;
      Moved(w, JobMark(k, ok), Some(JobDone(k, ok)))
    case JobMark(k, ok) => Quiet(Append(w, Mark(k, Guard.Outcome(ok), w.clock, map[]), cap), Ready)
    case _ => Quiet(w, pc)
  }

  predicate InApprove(pc: Proc) {
    pc.Approving? || pc.CheckingSafeMode? || pc.CheckingExpiry? || pc.CheckingPolicy? || pc.Claiming? || pc.Marking? || pc.Settling?
  }

  predicate InForced(pc: Proc) {
    pc.ExecScopes? || pc.ExecSafeMode? || pc.Running?
  }

  predicate InChat(pc: Proc) {
    pc.ChatScopes? || pc.ChatSafeMode? || pc.ChatCreate? || pc.ChatRun?
  }

  predicate InEval(pc: Proc) {
    pc.EvalAction? || pc.EvalClaim? || pc.EvalPolicy? || pc.EvalCreate? || pc.EvalMark?
  }

  predicate InJob(pc: Proc) {
    pc.JobClaim? || pc.JobOwns? || pc.JobMark?
  }

  function Advance(w: World, now: nat, pc: Proc, ch: Choice, registry: Registry, cap: int): Moved {
    if InApprove(pc) then ApproveStep(w, now, pc, cap)
    else if InForced(pc) then ForcedStep(w, now, pc, ch, registry)
    else if InChat(pc) then ChatStep(w, now, pc, ch, registry)
    else if InEval(pc) then EvalStep(w, pc, ch, registry, cap)
    else if InJob(pc) then JobStep(w, pc, ch, cap)
    else RejectStep(w, pc)
  }

  /** Where a process may start. */
  predicate IsRequest(pc: Proc) {
    pc.Approving? || pc.Rejecting? || pc.ChatScopes? || pc.EvalAction? || (pc.JobClaim? && pc.key.JobRun?)
  }

  predicate Enabled(s: Sys, a: Action) {
    s.worlds != [] && (a.Begin? ==> At(s, a.pid).Ready? && IsRequest(a.request))
  }

  function Apply(s: Sys, p: nat, m: Moved): (s': Sys)
    ensures s'.worlds != []
  {
    Sys(s.worlds + [m.world], s.procs[p := m.proc], if m.event.Some? then s.trace + [m.event.value] else s.trace)
  }

  function Next(s: Sys, a: Action, registry: Registry, cap: int): (s': Sys)
    requires Enabled(s, a)
    ensures s'.worlds != []
  {
    var w := Now(s);
    match a
    case Environment(delta, safeMode, policy, autoclean) =>
      s.(worlds := s.worlds + [w.(clock := w.clock + delta, safeMode := safeMode, policy := policy, autoclean := autoclean)])
    case Cleanup => s.(worlds := s.worlds + [w.(records := Cleaned(w.records, w.clock, w.autoclean))])
    case Begin(p, request) => s.(worlds := s.worlds + [w], procs := s.procs[p := request])
    case Crash(p) => s.(worlds := s.worlds + [w], procs := s.procs[p := Ready])
    case Step(p, ch) => Apply(s, p, Advance(w, |s.worlds| - 1, At(s, p), ch, registry, cap))
  }

  /** A start with empty files and any settings of clock and switches. */
  predicate Initial(s: Sys) {
    |s.worlds| == 1 && s.worlds[0].records == [] && s.worlds[0].ledger == [] && s.procs == map[] && s.trace == []
  }

  ghost predicate IsRun(states: seq<Sys>, actions: seq<Action>, registry: Registry, cap: int) {
    && |states| == |actions| + 1
    && Initial(states[0])
    && forall i :: 0 <= i < |actions| ==>
         Enabled(states[i], actions[i]) && states[i + 1] == Next(states[i], actions[i], registry, cap)
  }
}
