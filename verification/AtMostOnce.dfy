/** Side effects happen at most once: the interleaved system follows the claim, effect, report
    discipline on every key, so the discipline's theorem carries over to approvals, rule proposals
    and scheduled jobs. */
module AtMostOnce {
  import opened Sequences
  import opened Ledger
  import opened Policy
  import opened Approvals
  import opened Interleaving
  import Service = ApprovalService
  import Guard

  /** A process seen as a worker of the discipline. */
  function Worker(pc: Proc): Guard.Worker {
    match pc
    case ExecScopes(r, _) => Guard.Owns(ExecutionKey(r))
    case ExecSafeMode(r, _) => Guard.Owns(ExecutionKey(r))
    case Running(r, _) => Guard.Owns(ExecutionKey(r))
    case Marking(r, result) => Guard.Ran(ExecutionKey(r), result.ok)
    case EvalPolicy(e) => Guard.Owns(ProposalKey(e))
    case EvalCreate(e) => Guard.Owns(ProposalKey(e))
    case EvalMark(e, created, _) => Guard.Ran(ProposalKey(e), created)
    case JobOwns(k) => Guard.Owns(k)
    case JobMark(k, ok) => Guard.Ran(k, ok)
    case _ => Guard.Free
  }

  /** The key whose side effect an event completes successfully. */
  function EffectOf(e: Event): Option<Key> {
    match e
    case Finished(_, _, ok, _, approval, _, _) => if ok && approval.Some? then Some(ExecutionKey(approval.value)) else None
    case Proposed(k) => Some(k)
    case JobDone(k, ok) => if ok then Some(k) else None
  }

  /** How often each key's side effect completed successfully. */
  function Effects(trace: seq<Event>): multiset<Key> {
    if trace == [] then multiset{}
    else
      var before, last := Effects(trace[..|trace| - 1]), EffectOf(trace[|trace| - 1]);
      if last.Some? then before + multiset{last.value} else before
  }

  function Workers(procs: map<nat, Proc>): map<nat, Guard.Worker> {
    map p | p in procs :: Worker(procs[p])
  }

  function Abstract(s: Sys): Guard.State
    requires s.worlds != []
  {
    Guard.State(Now(s).ledger, Workers(s.procs), Effects(s.trace))
  }

  /** The ledger operation that a process at `pc` is about to perform. */
  function Request(w: World, pc: Proc): Option<Op> {
    match pc
    case Claiming(r, _) => Some(Service.StartOp(r, w.clock))
    case EvalClaim(e) => Some(StartProposal(e, w.clock))
    case JobClaim(k) => Some(Start(k, JobRunKind, w.clock, None, map[]))
    case Marking(r, result) => Some(Service.MarkOp(r, result, w.clock))
    case EvalMark(e, created, _) => Some(MarkProposal(e, created, w.clock))
    case JobMark(k, ok) => Some(Mark(k, Guard.Outcome(ok), w.clock, map[]))
    case _ => None
  }

  /** What a process step is for the discipline. */
  function StepAction(w: World, p: nat, pc: Proc, pc': Proc): Guard.Action {
    var request := Request(w, pc);
    if request.Some? && request.value.Start? then Guard.Claim(p, request.value)
    else if request.Some? then Guard.Report(p, request.value)
    else if Worker(pc).Owns? && Worker(pc').Ran? then Guard.Effect(p, Worker(pc').ok)
    else if Worker(pc).Owns? && Worker(pc').Owns? then Guard.Stutter
    else Guard.Crash(p)
  }

  function GuardAction(s: Sys, a: Action, registry: Registry, cap: int): Guard.Action
    requires Enabled(s, a)
  {
    match a
    case Environment(_, _, _, _) => Guard.Stutter
    case Cleanup => Guard.Stutter
    case Begin(p, _) => Guard.Crash(p)
    case Crash(p) => Guard.Crash(p)
    case Step(p, ch) =>
      StepAction(Now(s), p, At(s, p), Advance(Now(s), |s.worlds| - 1, At(s, p), ch, registry, cap).proc)
  }

  /** What one process step means for the discipline, read off its own parts. */
  ghost predicate Disciplined(w: World, pc: Proc, m: Moved, cap: int) {
    var request := Request(w, pc);
    var effect := if m.event.Some? then EffectOf(m.event.value) else None;
    if request.Some? then
      && effect == None
      && Worker(pc) == (if request.value.Start? then Guard.Free else Guard.Ran(request.value.key, request.value.status == Succeeded))
      && (request.value.Mark? ==> request.value.status == Succeeded || request.value.status == Failed)
      && (if Open(w, request.value, cap)
          then && m.world.ledger == Append(w, request.value, cap).ledger
               && Worker(m.proc) == (if request.value.Start? then Guard.Owns(request.value.key) else Guard.Free)
          else m.world.ledger == w.ledger && Worker(m.proc).Free?)
    else
      && m.world.ledger == w.ledger
      && !Worker(pc).Ran?
      && match Worker(m.proc)
         case Free => effect == None
         case Owns(k) => Worker(pc) == Worker(m.proc) && effect == None
         case Ran(k, ok) => Worker(pc) == Guard.Owns(k) && effect == if ok then Some(k) else None
  }

  lemma ApproveDisciplined(w: World, now: nat, pc: Proc, cap: int)
    requires InApprove(pc)
    ensures Disciplined(w, pc, ApproveStep(w, now, pc, cap), cap)
  {
  }

  lemma ForcedDisciplined(w: World, now: nat, pc: Proc, ch: Choice, registry: Registry, cap: int)
    requires InForced(pc)
    ensures Disciplined(w, pc, ForcedStep(w, now, pc, ch, registry), cap)
  {
  }

  lemma ChatDisciplined(w: World, now: nat, pc: Proc, ch: Choice, registry: Registry, cap: int)
    requires InChat(pc)
    ensures Disciplined(w, pc, ChatStep(w, now, pc, ch, registry), cap)
  {
  }

  lemma EvalWritesDisciplined(w: World, pc: Proc, ch: Choice, registry: Registry, cap: int)
    requires pc.EvalClaim? || pc.EvalMark?
    ensures Disciplined(w, pc, EvalStep(w, pc, ch, registry, cap), cap)
  {
  }

  lemma EvalDisciplined(w: World, pc: Proc, ch: Choice, registry: Registry, cap: int)
    requires InEval(pc)
    ensures Disciplined(w, pc, EvalStep(w, pc, ch, registry, cap), cap)
  {
    if pc.EvalClaim? || pc.EvalMark? { EvalWritesDisciplined(w, pc, ch, registry, cap); }
  }

  lemma StepDisciplined(w: World, now: nat, pc: Proc, ch: Choice, registry: Registry, cap: int)
    ensures Disciplined(w, pc, Advance(w, now, pc, ch, registry, cap), cap)
  {
    if InApprove(pc) {
      ApproveDisciplined(w, now, pc, cap);
    } else if InForced(pc) {
      ForcedDisciplined(w, now, pc, ch, registry, cap);
    } else if InChat(pc) {
      ChatDisciplined(w, now, pc, ch, registry, cap);
    } else if InEval(pc) {
      EvalDisciplined(w, pc, ch, registry, cap);
    }
  }

  lemma WorkersUpdate(procs: map<nat, Proc>, p: nat, pc: Proc)
    ensures Workers(procs[p := pc]) == Workers(procs)[p := Worker(pc)]
  {
  }

  lemma EffectsExtend(trace: seq<Event>, e: Event)
    ensures Effects(trace + [e]) == if EffectOf(e).Some? then Effects(trace) + multiset{EffectOf(e).value} else Effects(trace)
  {
    assert (trace + [e])[..|trace|] == trace;
  }

  function EventEffect(m: Moved): Option<Key> {
    if m.event.Some? then EffectOf(m.event.value) else None
  }

  lemma DisciplinedMoves(g: Guard.State, p: nat, w: World, pc: Proc, m: Moved, cap: int)
    requires Disciplined(w, pc, m, cap)
    requires g.history == w.ledger && Guard.At(g, p) == Worker(pc)
    requires !pc.Ready? ==> p in g.workers
    ensures var a := StepAction(w, p, pc, m.proc);
      && Guard.Enabled(g, a)
      && Guard.Next(g, a, cap) == Guard.State(m.world.ledger, g.workers[p := Worker(m.proc)],
           if EventEffect(m).Some? then g.effects + multiset{EventEffect(m).value} else g.effects)
  {
    if p in g.workers {
      assert g.workers[p := Worker(pc)] == g.workers;
    }
  }

  lemma ApplyAbstract(s: Sys, p: nat, m: Moved)
    ensures Abstract(Apply(s, p, m))
      == Guard.State(m.world.ledger, Workers(s.procs)[p := Worker(m.proc)],
           if EventEffect(m).Some? then Effects(s.trace) + multiset{EventEffect(m).value} else Effects(s.trace))
  {
    WorkersUpdate(s.procs, p, m.proc);
    if m.event.Some? {
      EffectsExtend(s.trace, m.event.value);
    }
  }

  lemma MoveRefines(s: Sys, p: nat, m: Moved, cap: int)
    requires s.worlds != [] && Disciplined(Now(s), At(s, p), m, cap)
    ensures var a := StepAction(Now(s), p, At(s, p), m.proc);
      Guard.Enabled(Abstract(s), a) && Abstract(Apply(s, p, m)) == Guard.Next(Abstract(s), a, cap)
  {
    DisciplinedMoves(Abstract(s), p, Now(s), At(s, p), m, cap);
    ApplyAbstract(s, p, m);
  }

  lemma StepRefines(s: Sys, p: nat, ch: Choice, registry: Registry, cap: int, m: Moved)
    requires s.worlds != [] && m == Advance(Now(s), |s.worlds| - 1, At(s, p), ch, registry, cap)
    ensures var a := StepAction(Now(s), p, At(s, p), m.proc);
      Guard.Enabled(Abstract(s), a) && Abstract(Apply(s, p, m)) == Guard.Next(Abstract(s), a, cap)
  {
    StepDisciplined(Now(s), |s.worlds| - 1, At(s, p), ch, registry, cap);
    MoveRefines(s, p, m, cap);
  }

  /** Each system step is a step of the discipline. */
  lemma Refines(s: Sys, a: Action, registry: Registry, cap: int)
    requires Enabled(s, a)
    ensures Guard.Enabled(Abstract(s), GuardAction(s, a, registry, cap))
    ensures Abstract(Next(s, a, registry, cap)) == Guard.Next(Abstract(s), GuardAction(s, a, registry, cap), cap)
  {
    match a
    case Step(p, ch) => StepRefines(s, p, ch, registry, cap, Advance(Now(s), |s.worlds| - 1, At(s, p), ch, registry, cap));
    case Begin(p, request) => WorkersUpdate(s.procs, p, request);
    case Crash(p) => WorkersUpdate(s.procs, p, Ready);
    case Environment(_, _, _, _) =>
    case Cleanup =>
  }

  // ---------------------------------------------------------------- the theorem on runs

  /** The action is a `try_start` on `k`. */
  predicate Claims(s: Sys, a: Action, k: Key)
    requires s.worlds != []
  {
    a.Step? && var request := Request(Now(s), At(s, a.pid));
      request.Some? && request.value.Start? && request.value.key == k
  }

  /** No `try_start` on `k` happens while the cap has pushed all of `k`'s records out. */
  ghost predicate Retained(states: seq<Sys>, actions: seq<Action>, cap: int, k: Key)
    requires |states| == |actions| + 1
  {
    forall i :: 0 <= i < |actions| && Enabled(states[i], actions[i]) && Claims(states[i], actions[i], k)
      ==> !Guard.Evicted(Now(states[i]).ledger, cap, k)
  }

  /** A claim of the discipline is a claim of the system. */
  lemma ClaimsClaim(s: Sys, a: Action, registry: Registry, cap: int)
    requires Enabled(s, a) && GuardAction(s, a, registry, cap).Claim?
    ensures Claims(s, a, GuardAction(s, a, registry, cap).op.key)
  {
  }

  /** A run of the system is a run of the discipline, state by state and step by step. */
  lemma AbstractRun(states: seq<Sys>, actions: seq<Action>, registry: Registry, cap: int)
    returns (guards: seq<Guard.State>, moves: seq<Guard.Action>)
    requires IsRun(states, actions, registry, cap)
    ensures Guard.IsRun(guards, moves, cap) && |guards| == |states|
    ensures forall i :: 0 <= i < |states| ==> states[i].worlds != [] && guards[i] == Abstract(states[i])
    ensures forall k :: Retained(states, actions, cap, k) ==> Guard.Retained(guards, moves, cap, k)
  {
    forall i | 0 <= i < |states| ensures states[i].worlds != [] {
      if i > 0 { assert states[i] == Next(states[i - 1], actions[i - 1], registry, cap); }
    }
    guards := seq(|states|, i requires 0 <= i < |states| => Abstract(states[i]));
    moves := seq(|actions|, i requires 0 <= i < |actions| => GuardAction(states[i], actions[i], registry, cap));
    forall i | 0 <= i < |actions|
      ensures Guard.Enabled(guards[i], moves[i]) && guards[i + 1] == Guard.Next(guards[i], moves[i], cap)
      ensures moves[i].Claim? ==> Claims(states[i], actions[i], moves[i].op.key)
    {
      Refines(states[i], actions[i], registry, cap);
      if moves[i].Claim? { ClaimsClaim(states[i], actions[i], registry, cap); }
    }
  }

  lemma {:induction false} EffectCounted(trace: seq<Event>, i: nat, k: Key)
    requires i < |trace| && EffectOf(trace[i]) == Some(k)
    ensures Effects(trace)[k] >= 1
  {
    if i < |trace| - 1 {
      EffectCounted(trace[..|trace| - 1], i, k);
    }
  }

  lemma {:induction false} TwoEffectsCounted(trace: seq<Event>, i: nat, j: nat, k: Key)
    requires i < j < |trace| && EffectOf(trace[i]) == EffectOf(trace[j]) == Some(k)
    ensures Effects(trace)[k] >= 2
  {
    if j < |trace| - 1 {
      TwoEffectsCounted(trace[..|trace| - 1], i, j, k);
    } else {
      EffectCounted(trace[..|trace| - 1], i, k);
    }
  }

  /** Main result: in every interleaving of approvals, rejections, cleanups, chat plans, rule
      evaluations, jobs and crashes, no two events complete the side effect of one key, provided no
      claim on that key is made while the cap has evicted it. */
  lemma SideEffectsHappenAtMostOnce(states: seq<Sys>, actions: seq<Action>, registry: Registry, cap: int, k: Key, n: nat,
                                    i: nat, j: nat)
    requires IsRun(states, actions, registry, cap) && n < |states|
    requires Retained(states, actions, cap, k)
    requires i < |states[n].trace| && EffectOf(states[n].trace[i]) == Some(k)
    requires j < |states[n].trace| && EffectOf(states[n].trace[j]) == Some(k)
    ensures i == j
  {
    var guards, moves := AbstractRun(states, actions, registry, cap);
    Guard.AtMostOnce(guards, moves, cap, k, n);
    if i < j {
      TwoEffectsCounted(states[n].trace, i, j, k);
    } else if j < i {
      TwoEffectsCounted(states[n].trace, j, i, k);
    }
  }

  /** In particular an approval's step completes successfully at most once, */
  lemma ApprovalExecutesAtMostOnce(states: seq<Sys>, actions: seq<Action>, registry: Registry, cap: int, n: nat,
                                   r: Approval, i: nat, j: nat)
    requires IsRun(states, actions, registry, cap) && n < |states| && Retained(states, actions, cap, ExecutionKey(r))
    requires i < |states[n].trace| && j < |states[n].trace|
    requires var e := states[n].trace[i]; e.Finished? && e.ok && e.approval.Some? && ExecutionKey(e.approval.value) == ExecutionKey(r)
    requires var e := states[n].trace[j]; e.Finished? && e.ok && e.approval.Some? && ExecutionKey(e.approval.value) == ExecutionKey(r)
    ensures i == j
  {
    SideEffectsHappenAtMostOnce(states, actions, registry, cap, ExecutionKey(r), n, i, j);
  }

  /** and for each rule, action position, first matching item and action signature at most one approval
      is ever created, whatever evaluations lose by crashing. */
  lemma ProposalCreatedAtMostOnce(states: seq<Sys>, actions: seq<Action>, registry: Registry, cap: int, n: nat,
                                  key: Key, i: nat, j: nat)
    requires IsRun(states, actions, registry, cap) && n < |states| && key.RuleAction? && Retained(states, actions, cap, key)
    requires i < |states[n].trace| && states[n].trace[i] == Proposed(key)
    requires j < |states[n].trace| && states[n].trace[j] == Proposed(key)
    ensures i == j
  {
    SideEffectsHappenAtMostOnce(states, actions, registry, cap, key, n, i, j);
  }

  /** An unbounded ledger retains every key; so there the bound needs no hypothesis. */
  lemma UncappedRetains(states: seq<Sys>, actions: seq<Action>, cap: int, k: Key)
    requires |states| == |actions| + 1 && cap <= 0
    ensures Retained(states, actions, cap, k)
  {
  }

  // ---------------------------------------------------------------- what a refusal tells

  lemma {:induction false} CountedIsOnRecord(trace: seq<Event>, k: Key) returns (i: nat)
    requires Effects(trace)[k] >= 1
    ensures i < |trace| && EffectOf(trace[i]) == Some(k)
  {
    if EffectOf(trace[|trace| - 1]) == Some(k) {
      i := |trace| - 1;
    } else {
      i := CountedIsOnRecord(trace[..|trace| - 1], k);
    }
  }

  /** Jobs work under job keys, and proposals are recorded under proposal keys. */
  predicate JobKey(pc: Proc) {
    InJob(pc) ==> pc.key.JobRun?
  }

  predicate OwnKind(e: Event) {
    (e.JobDone? ==> e.key.JobRun?) && (e.Proposed? ==> e.key.RuleAction?)
  }

  lemma EvalKeepsKinds(w: World, pc: Proc, ch: Choice, registry: Registry, cap: int)
    requires InEval(pc)
    ensures var m := EvalStep(w, pc, ch, registry, cap); !InJob(m.proc) && (m.event.Some? ==> OwnKind(m.event.value))
  {
  }

  lemma ChatKeepsKinds(w: World, now: nat, pc: Proc, ch: Choice, registry: Registry)
    requires InChat(pc)
    ensures var m := ChatStep(w, now, pc, ch, registry); !InJob(m.proc) && (m.event.Some? ==> OwnKind(m.event.value))
  {
  }

  lemma ForcedKeepsKinds(w: World, now: nat, pc: Proc, ch: Choice, registry: Registry)
    requires InForced(pc)
    ensures var m := ForcedStep(w, now, pc, ch, registry); !InJob(m.proc) && (m.event.Some? ==> OwnKind(m.event.value))
  {
  }

  lemma StepKeepsKinds(w: World, now: nat, pc: Proc, ch: Choice, registry: Registry, cap: int)
    requires JobKey(pc)
    ensures var m := Advance(w, now, pc, ch, registry, cap); JobKey(m.proc) && (m.event.Some? ==> OwnKind(m.event.value))
  {
    if InEval(pc) {
      EvalKeepsKinds(w, pc, ch, registry, cap);
    } else if InChat(pc) {
      ChatKeepsKinds(w, now, pc, ch, registry);
    } else if InForced(pc) {
      ForcedKeepsKinds(w, now, pc, ch, registry);
    }
  }

  lemma {:induction false} KeysAreOfTheirKind(states: seq<Sys>, actions: seq<Action>, registry: Registry, cap: int, n: nat)
    requires IsRun(states, actions, registry, cap) && n < |states|
    ensures forall p :: JobKey(At(states[n], p))
    ensures forall e :: e in states[n].trace ==> OwnKind(e)
  {
    if n > 0 {
      KeysAreOfTheirKind(states, actions, registry, cap, n - 1);
      var s, a := states[n - 1], actions[n - 1];
      NextKeepsKinds(s, a, registry, cap);
    }
  }

  lemma NextKeepsKinds(s: Sys, a: Action, registry: Registry, cap: int)
    requires Enabled(s, a) && (forall p :: JobKey(At(s, p))) && forall e :: e in s.trace ==> OwnKind(e)
    ensures var s' := Next(s, a, registry, cap); (forall p :: JobKey(At(s', p))) && forall e :: e in s'.trace ==> OwnKind(e)
  {
    var s' := Next(s, a, registry, cap);
    if a.Step? {
      assert JobKey(At(s, a.pid));
      StepKeepsKinds(Now(s), |s.worlds| - 1, At(s, a.pid), a.choice, registry, cap);
    }
    forall p ensures JobKey(At(s', p)) {
      assert JobKey(At(s, p));
    }
  }

  /** Main result: an approve that answers as an idempotent duplicate because the latest record of its
      key is succeeded tells the truth: the step was executed successfully before. Only a record that
      is still started can make that answer untrue. */
  lemma DuplicateOfSuccessIsTrue(states: seq<Sys>, actions: seq<Action>, registry: Registry, cap: int, n: nat, r: Approval) returns (i: nat)
    requires IsRun(states, actions, registry, cap) && n < |states| && states[n].worlds != []
    requires !CanStart(Window(Now(states[n]).ledger, cap), ExecutionKey(r))
    requires Latest(Window(Now(states[n]).ledger, cap), ExecutionKey(r)).value.status != Started
    ensures i < |states[n].trace| && states[n].trace[i].Finished? && EffectOf(states[n].trace[i]) == Some(ExecutionKey(r))
  {
    var guards, moves := AbstractRun(states, actions, registry, cap);
    Guard.SucceededIsTrue(guards, moves, cap, ExecutionKey(r), n);
    LatestInWindow(Now(states[n]).ledger, cap, ExecutionKey(r));
    i := CountedIsOnRecord(states[n].trace, ExecutionKey(r));
    KeysAreOfTheirKind(states, actions, registry, cap, n);
    assert OwnKind(states[n].trace[i]);
  }
}
