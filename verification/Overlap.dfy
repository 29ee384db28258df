/** What overlapping calls can do that atomic calls cannot: a reject that runs to its end inside an
    approve stops nothing, from every state in which the approve would have run its step. */
module Overlap {
  import opened Sequences
  import opened Policy
  import opened Approvals
  import opened Interleaving
  import opened Finality
  import Atomicity
  import Service = ApprovalService

  /** The skill runs on record. */
  function RunsOf(trace: seq<Event>): seq<Run> {
    if trace == [] then [] else RunsOf(trace[..|trace| - 1]) + Atomicity.RunOf(Some(trace[|trace| - 1]))
  }

  lemma OneMoreEvent(trace: seq<Event>, e: Event)
    ensures RunsOf(trace + [e]) == RunsOf(trace) + Atomicity.RunOf(Some(e))
  {
    assert (trace + [e])[..|trace|] == trace;
  }

  /** Process `p` got to `pc`, leaving the world `w` and these runs; nobody else moved. */
  ghost predicate Reaches(s: Sys, s': Sys, p: nat, pc: Proc, w: World, runs: seq<Run>) {
    && s'.worlds != [] && Now(s') == w && At(s', p) == pc && RunsOf(s'.trace) == RunsOf(s.trace) + runs
    && forall q :: q != p ==> At(s', q) == At(s, q)
  }

  lemma StepReaches(s: Sys, p: nat, m: Moved)
    ensures Reaches(s, Apply(s, p, m), p, m.proc, m.world, Atomicity.RunOf(m.event))
  {
    var s' := Apply(s, p, m);
    assert Now(s') == m.world && At(s', p) == m.proc;
    if m.event.Some? {
      OneMoreEvent(s.trace, m.event.value);
    } else {
      assert RunsOf(s.trace) + [] == RunsOf(s.trace);
    }
  }

  /** One step of process `p`, which makes no new record. */
  lemma OneStep(s: Sys, p: nat, ch: Choice, m: Moved, registry: Registry, cap: int, id: string)
    requires s.worlds != [] && m == Advance(Now(s), |s.worlds| - 1, At(s, p), ch, registry, cap)
    requires Made(Now(s), At(s, p), ch, registry).None?
    ensures CanReach(s, Apply(s, p, m), registry, cap, id)
  {
    OneAction(s, Step(p, ch), Apply(s, p, m), registry, cap, id);
  }

  /** A quiet step of approve or reject. */
  lemma QuietStep(s: Sys, p: nat, m: Moved, registry: Registry, cap: int, id: string)
    requires s.worlds != [] && m.event == None
    requires var from := At(s, p);
      || (InApprove(from) && m == ApproveStep(Now(s), |s.worlds| - 1, from, cap))
      || ((from.Rejecting? || from.RejectLoaded?) && m == RejectStep(Now(s), from))
    ensures CanReach(s, Apply(s, p, m), registry, cap, id)
  {
    OneStep(s, p, ANY, m, registry, cap, id);
  }

  /** The surroundings in which approving `r` runs its step. */
  predicate Approvable(w: World, r: Approval, registry: Registry, cap: int) {
    && Get(w.records, r.id) == Some(r) && r.status == Pending && !w.safeMode && MayExecute(w, r, registry, cap)
  }

  /** The same for a copy that has been read already. */
  predicate MayExecute(w: World, r: Approval, registry: Registry, cap: int) {
    && !IsExpired(r, w.clock) && w.policy.CheckScopes(r.scopes).0
    && Open(w, Service.StartOp(r, w.clock), cap)
    && Judge(registry, r.step, w.policy, w.safeMode, true).MayRun?
  }

  // ---------------------------------------------------------------- the reject inside

  /** A request begins and reads the record. */
  lemma BeginsAndReads(s: Sys, p: nat, request: Proc, m: Moved, registry: Registry, cap: int, id: string) returns (s': Sys)
    requires s.worlds != [] && At(s, p) == Ready
    requires (request.Approving? && m == ApproveStep(Now(s), |s.worlds|, request, cap)) || (request.Rejecting? && m == RejectStep(Now(s), request))
    requires m.event == None
    ensures CanReach(s, s', registry, cap, id) && Reaches(s, s', p, m.proc, m.world, [])
  {
    var s1 := Next(s, Begin(p, request), registry, cap);
    s' := Apply(s1, p, m);
    OneAction(s, Begin(p, request), s1, registry, cap, id);
    QuietStep(s1, p, m, registry, cap, id);
    StepReaches(s1, p, m);
    ReachesOn(s, s1, s', registry, cap, id);
  }

  /** The world once the reject has returned. */
  function Rejected(w: World, r: Approval, reason: string): World {
    w.(records := Settle(w.records, Service.Declined(r, reason), w.autoclean))
  }

  lemma RejecterSettles(s: Sys, q: nat, r: Approval, reason: string, registry: Registry, cap: int) returns (s': Sys)
    requires s.worlds != [] && At(s, q) == RejectLoaded(r, reason) && !IsExpired(r, Now(s).clock)
    ensures CanReach(s, s', registry, cap, r.id) && Reaches(s, s', q, Ready, Rejected(Now(s), r, reason), [])
  {
    var m1, m2 := Quiet(Now(s), Settling(Service.Declined(r, reason))), Quiet(Rejected(Now(s), r, reason), Ready);
    var s1 := Apply(s, q, m1);
    s' := Apply(s1, q, m2);
    QuietStep(s, q, m1, registry, cap, r.id);
    StepReaches(s, q, m1);
    QuietStep(s1, q, m2, registry, cap, r.id);
    StepReaches(s1, q, m2);
    ReachesOn(s, s1, s', registry, cap, r.id);
  }

  // ---------------------------------------------------------------- the approve goes on

  /** An approve of `r` that will run its step with this outcome if only nothing changes. */
  predicate OnTrack(w: World, pc: Proc, r: Approval, text: string, registry: Registry, cap: int) {
    match pc
    case CheckingSafeMode(copy, _) => copy == r && !w.safeMode && MayExecute(w, r, registry, cap)
    case CheckingExpiry(copy, _) => copy == r && MayExecute(w, r, registry, cap)
    case CheckingPolicy(copy, _) => copy == r && MayExecute(w, r, registry, cap)
    case Claiming(copy, _) => copy == r && MayExecute(w, r, registry, cap)
    case ExecScopes(copy, _) => copy == r && Judge(registry, r.step, w.policy, w.safeMode, true).MayRun?
    case ExecSafeMode(copy, _) => copy == r && Judge(registry, r.step, w.policy, w.safeMode, true).MayRun?
    case Running(copy, _) => copy == r
    case Marking(copy, result) => copy == r && result == StepResult(r.step.id, true, text)
    case Settling(settled) => settled == Service.Completed(r, StepResult(r.step.id, true, text))
    case _ => false
  }

  /** The run that is still to come. */
  function Due(pc: Proc, r: Approval): seq<Run> {
    if pc.Marking? || pc.Settling? then [] else [Run(r.step.skillName, r.step.args)]
  }

  /** One step towards settling, which touches at most the ledger. */
  predicate StaysOnTrack(w: World, pc: Proc, m: Moved, r: Approval, text: string, registry: Registry, cap: int) {
    && OnTrack(m.world, m.proc, r, text, registry, cap) && Rank(m.proc) < Rank(pc)
    && m.world == w.(ledger := m.world.ledger) && Atomicity.RunOf(m.event) + Due(m.proc, r) == Due(pc, r)
  }

  lemma ApproveOnTrack(w: World, now: nat, pc: Proc, r: Approval, text: string, registry: Registry, cap: int)
    requires OnTrack(w, pc, r, text, registry, cap) && InApprove(pc) && !pc.Settling?
    ensures StaysOnTrack(w, pc, ApproveStep(w, now, pc, cap), r, text, registry, cap)
  {
  }

  lemma ExecutorOnTrack(w: World, now: nat, pc: Proc, r: Approval, text: string, registry: Registry, cap: int)
    requires OnTrack(w, pc, r, text, registry, cap) && InForced(pc)
    ensures StaysOnTrack(w, pc, ForcedStep(w, now, pc, Choice(RunReturns(text), "", 0), registry), r, text, registry, cap)
  {
  }

  lemma OneStepOnTrack(s: Sys, p: nat, r: Approval, text: string, registry: Registry, cap: int) returns (m: Moved)
    requires s.worlds != [] && OnTrack(Now(s), At(s, p), r, text, registry, cap) && !At(s, p).Settling?
    ensures CanReach(s, Apply(s, p, m), registry, cap, r.id) && StaysOnTrack(Now(s), At(s, p), m, r, text, registry, cap)
  {
    var w, pc, ch := Now(s), At(s, p), Choice(RunReturns(text), "", 0);
    if InApprove(pc) {
      m := ApproveStep(w, |s.worlds| - 1, pc, cap);
      ApproveOnTrack(w, |s.worlds| - 1, pc, r, text, registry, cap);
    } else {
      m := ForcedStep(w, |s.worlds| - 1, pc, ch, registry);
      ExecutorOnTrack(w, |s.worlds| - 1, pc, r, text, registry, cap);
    }
    OneStep(s, p, ch, m, registry, cap, r.id);
  }

  /** By `last` the approve has run what was due, and has settled the record as approved. */
  ghost predicate Completes(s: Sys, last: Sys, p: nat, r: Approval, text: string) {
    && s.worlds != [] && last.worlds != [] && RunsOf(last.trace) == RunsOf(s.trace) + Due(At(s, p), r)
    && Now(last).records == Settle(Now(s).records, Service.Completed(r, StepResult(r.step.id, true, text)), Now(s).autoclean)
  }

  lemma RunsChain(before: seq<Run>, first: seq<Run>, rest: seq<Run>, due: seq<Run>, between: seq<Run>, after: seq<Run>)
    requires between == before + first && after == between + rest && first + rest == due
    ensures after == before + due
  {
  }

  lemma CompletesAfterStep(s: Sys, s1: Sys, last: Sys, p: nat, m: Moved, r: Approval, text: string, registry: Registry, cap: int)
    requires s.worlds != [] && Reaches(s, s1, p, m.proc, m.world, Atomicity.RunOf(m.event))
    requires StaysOnTrack(Now(s), At(s, p), m, r, text, registry, cap) && Completes(s1, last, p, r, text)
    ensures Completes(s, last, p, r, text)
  {
    RunsChain(RunsOf(s.trace), Atomicity.RunOf(m.event), Due(m.proc, r), Due(At(s, p), r), RunsOf(s1.trace), RunsOf(last.trace));
  }

  /** Left alone it completes, whatever the store says by now. */
  lemma {:induction false} StaleApproveCompletes(s: Sys, p: nat, r: Approval, text: string, registry: Registry, cap: int) returns (s': Sys)
    requires s.worlds != [] && OnTrack(Now(s), At(s, p), r, text, registry, cap)
    ensures CanReach(s, s', registry, cap, r.id) && Completes(s, s', p, r, text)
    decreases Rank(At(s, p))
  {
    if At(s, p).Settling? {
      var m := Quiet(Now(s).(records := Settle(Now(s).records, At(s, p).settled, Now(s).autoclean)), Ready);
      s' := Apply(s, p, m);
      QuietStep(s, p, m, registry, cap, r.id);
    } else {
      var m := OneStepOnTrack(s, p, r, text, registry, cap);
      var s1 := Apply(s, p, m);
      StepReaches(s, p, m);
      s' := StaleApproveCompletes(s1, p, r, text, registry, cap);
      CompletesAfterStep(s, s1, s', p, m, r, text, registry, cap);
      ReachesOn(s, s1, s', registry, cap, r.id);
    }
  }

  lemma RejecterReads(w: World, r: Approval, reason: string)
    requires Get(w.records, r.id) == Some(r) && r.status == Pending
    ensures RejectStep(w, Rejecting(r.id, reason)) == Quiet(w, RejectLoaded(r, reason))
  {
  }

  /** A reject of the same record begins and runs to its end. */
  lemma RejectMeanwhile(s: Sys, q: nat, r: Approval, reason: string, registry: Registry, cap: int) returns (s': Sys)
    requires s.worlds != [] && At(s, q) == Ready && Approvable(Now(s), r, registry, cap)
    ensures CanReach(s, s', registry, cap, r.id) && Reaches(s, s', q, Ready, Rejected(Now(s), r, reason), [])
  {
    var m := Quiet(Now(s), RejectLoaded(r, reason));
    RejecterReads(Now(s), r, reason);
    var s1 := BeginsAndReads(s, q, Rejecting(r.id, reason), m, registry, cap, r.id);
    assert Now(s1) == Now(s) && At(s1, q) == RejectLoaded(r, reason);
    s' := RejecterSettles(s1, q, r, reason, registry, cap);
    ReachesOn(s, s1, s', registry, cap, r.id);
  }

  /** A decision does not bind a call in flight that holds a copy of the record. Whenever an approve
      would run its step, with automatic cleaning on or off, an approve and a reject can overlap so that
      the reject has stored its outcome and returned, without a skill run, and the approve then runs the
      step all the same and settles the record as approved. */
  lemma StaleApproveRunsRejectedStep(s: Sys, p: nat, q: nat, r: Approval, reason: string, text: string, registry: Registry, cap: int)
    returns (rejected: Sys, last: Sys)
    requires s.worlds != [] && p != q && At(s, p) == At(s, q) == Ready && Approvable(Now(s), r, registry, cap)
    ensures CanReach(s, rejected, registry, cap, r.id) && CanReach(rejected, last, registry, cap, r.id)
    ensures rejected.worlds != [] && Now(rejected) == Rejected(Now(s), r, reason)
    ensures At(rejected, q) == Ready && RunsOf(rejected.trace) == RunsOf(s.trace)
    ensures last.worlds != [] && RunsOf(last.trace) == RunsOf(s.trace) + [Run(r.step.skillName, r.step.args)]
    ensures Now(last).records
         == Settle(Now(rejected).records, Service.Completed(r, StepResult(r.step.id, true, text)), Now(s).autoclean)
  {
    var m := Quiet(Now(s), CheckingSafeMode(r, ZERO.(loaded := |s.worlds|)));
    var read := BeginsAndReads(s, p, Approving(r.id), m, registry, cap, r.id);
    rejected := RejectMeanwhile(read, q, r, reason, registry, cap);
    ReachesOn(s, read, rejected, registry, cap, r.id);
    last := StaleApproveCompletes(rejected, p, r, text, registry, cap);
  }
}
