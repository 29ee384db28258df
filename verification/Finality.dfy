/** When a decision is final although calls overlap: exactly while no call in flight holds a copy of the
    record. */
module Finality {
  import opened Sequences
  import opened Policy
  import opened Approvals
  import opened Interleaving
  import Service = ApprovalService
  import AtMostOnce

  /** The copy of a record that an approve or reject in flight works on. */
  function Held(pc: Proc): Option<Approval> {
    match pc
    case CheckingSafeMode(r, _) => Some(r)
    case CheckingExpiry(r, _) => Some(r)
    case CheckingPolicy(r, _) => Some(r)
    case Claiming(r, _) => Some(r)
    case ExecScopes(r, _) => Some(r)
    case ExecSafeMode(r, _) => Some(r)
    case Running(r, _) => Some(r)
    case Marking(r, _) => Some(r)
    case Settling(r) => Some(r)
    case RejectLoaded(r, _) => Some(r)
    case _ => None
  }

  predicate Holds(pc: Proc, id: string) {
    Held(pc).Some? && Held(pc).value.id == id
  }

  ghost predicate NobodyHolds(s: Sys, id: string) {
    forall p :: !Holds(At(s, p), id)
  }

  /** The record that a step creates. */
  function Made(w: World, pc: Proc, ch: Choice, registry: Registry): Option<Approval> {
    match pc
    case ChatCreate(steps) =>
      if steps == [] || steps[0].skillName !in registry then None
      else NewApproval(registry, steps[0], registry[steps[0].skillName].requiredScopes, w.policy, w.safeMode, w.clock, ch.ttl, ch.freshId)
    case EvalCreate(e) =>
      NewApproval(registry, Rules.ProposedStep(Proposal(e)), RuleScopes(registry, Proposal(e).skillName),
                  w.policy, w.safeMode, w.clock, ch.ttl, ch.freshId)
    case _ => None
  }

  /** An id is issued a second time. */
  predicate Reissues(s: Sys, a: Action, registry: Registry, id: string)
    requires s.worlds != []
  {
    a.Step? && var made := Made(Now(s), At(s, a.pid), a.choice, registry); made.Some? && made.value.id == id
  }

  /** All that a process step does to the records: store what it made, or settle what it holds. */
  function RecordsAfter(w: World, pc: Proc, ch: Choice, registry: Registry): seq<Approval> {
    var made := Made(w, pc, ch, registry);
    if made.Some? then Upsert(w.records, made.value)
    else if pc.Settling? then Settle(w.records, pc.settled, w.autoclean)
    else w.records
  }

  lemma ChatRecords(w: World, now: nat, pc: Proc, ch: Choice, registry: Registry)
    requires InChat(pc)
    ensures ChatStep(w, now, pc, ch, registry).world.records == RecordsAfter(w, pc, ch, registry)
  {
  }

  lemma EvalRecords(w: World, pc: Proc, ch: Choice, registry: Registry, cap: int)
    requires InEval(pc)
    ensures EvalStep(w, pc, ch, registry, cap).world.records == RecordsAfter(w, pc, ch, registry)
  {
  }

  lemma AdvanceRecords(w: World, now: nat, pc: Proc, ch: Choice, registry: Registry, cap: int)
    ensures Advance(w, now, pc, ch, registry, cap).world.records == RecordsAfter(w, pc, ch, registry)
  {
    if InChat(pc) {
      ChatRecords(w, now, pc, ch, registry);
    } else if InEval(pc) {
      EvalRecords(w, pc, ch, registry, cap);
    }
  }

  /** What every interleaving keeps: ids are unique. */
  lemma StepKeepsIdsUnique(s: Sys, a: Action, registry: Registry, cap: int)
    requires Enabled(s, a) && Service.UniqueIds(Now(s).records)
    ensures Service.UniqueIds(Now(Next(s, a, registry, cap)).records)
  {
    var w := Now(s);
    match a
    case Step(p, ch) =>
      AdvanceRecords(w, |s.worlds| - 1, At(s, p), ch, registry, cap);
      var made := Made(w, At(s, p), ch, registry);
      if made.Some? { Service.UpsertContents(w.records, made.value); }
      else if At(s, p).Settling? { Service.SettleContents(w.records, At(s, p).settled, w.autoclean); }
    case Cleanup => Service.CleanedContents(w.records, w.clock, w.autoclean);
    case _ =>
  }

  // ---------------------------------------------------------------- one step

  /** The step replaces or removes `r`: a process settles a copy of it, and the outcome differs from it
      or is cleaned away; or its id is issued again. */
  predicate Overwrites(s: Sys, a: Action, registry: Registry, r: Approval)
    requires s.worlds != []
  {
    || Reissues(s, a, registry, r.id)
    || (a.Step? && At(s, a.pid).Settling? && At(s, a.pid).settled.id == r.id
        && (At(s, a.pid).settled != r || Now(s).autoclean))
  }

  lemma MadeIsPending(w: World, pc: Proc, ch: Choice, registry: Registry)
    ensures Made(w, pc, ch, registry).Some? ==>
      Made(w, pc, ch, registry).value.status == Pending && Made(w, pc, ch, registry).value.step.skillName in registry
  {
  }

  /** The exact condition for one step: a decided record stays stored as it is unless it is overwritten. */
  lemma StaysExactlyUnlessOverwritten(s: Sys, a: Action, registry: Registry, cap: int, r: Approval)
    requires Enabled(s, a) && Service.UniqueIds(Now(s).records) && r in Now(s).records && r.status != Pending
    ensures r in Now(Next(s, a, registry, cap)).records <==> !Overwrites(s, a, registry, r)
  {
    var w := Now(s);
    match a
    case Step(p, ch) =>
      AdvanceRecords(w, |s.worlds| - 1, At(s, p), ch, registry, cap);
      MadeIsPending(w, At(s, p), ch, registry);
      var made := Made(w, At(s, p), ch, registry);
      if made.Some? { Service.UpsertContents(w.records, made.value); }
      else if At(s, p).Settling? { Service.SettleContents(w.records, At(s, p).settled, w.autoclean); }
    case Cleanup => Service.CleanedContents(w.records, w.clock, w.autoclean);
    case _ =>
  }

  // ---------------------------------------------------------------- nobody holds a copy

  /** A copy is held because it was held before, or because it has just been read as pending. */
  lemma HeldComesFrom(w: World, now: nat, pc: Proc, ch: Choice, registry: Registry, cap: int)
    ensures var held := Held(Advance(w, now, pc, ch, registry, cap).proc);
      held.Some? ==> || (Held(pc).Some? && held.value.id == Held(pc).value.id && held.value.step == Held(pc).value.step)
                     || (held.value in w.records && held.value.status == Pending)
  {
    if InApprove(pc) {
      HeldInApprove(w, now, pc, cap);
    } else if InForced(pc) {
      HeldInForced(w, now, pc, ch, registry);
    } else if InChat(pc) {
      NotHeldInChat(w, now, pc, ch, registry);
    }
  }

  lemma HeldInApprove(w: World, now: nat, pc: Proc, cap: int)
    requires InApprove(pc)
    ensures var held := Held(ApproveStep(w, now, pc, cap).proc);
      held.Some? ==> || (Held(pc).Some? && held.value.id == Held(pc).value.id && held.value.step == Held(pc).value.step)
                     || (held.value in w.records && held.value.status == Pending)
  {
  }

  lemma HeldInForced(w: World, now: nat, pc: Proc, ch: Choice, registry: Registry)
    requires InForced(pc)
    ensures var held := Held(ForcedStep(w, now, pc, ch, registry).proc);
      held.Some? ==> Held(pc).Some? && held.value == Held(pc).value
  {
  }

  lemma NotHeldInChat(w: World, now: nat, pc: Proc, ch: Choice, registry: Registry)
    requires InChat(pc)
    ensures Held(ChatStep(w, now, pc, ch, registry).proc).None?
  {
  }

  /** No record stored under the id is pending: it was decided, or it is gone. */
  ghost predicate Decided(s: Sys, id: string)
    requires s.worlds != []
  {
    forall q :: q in Now(s).records && q.id == id ==> q.status != Pending
  }

  lemma NobodyStartsHolding(s: Sys, a: Action, registry: Registry, cap: int, id: string)
    requires Enabled(s, a) && Decided(s, id) && NobodyHolds(s, id)
    ensures NobodyHolds(Next(s, a, registry, cap), id)
  {
    var s' := Next(s, a, registry, cap);
    if a.Step? {
      HeldComesFrom(Now(s), |s.worlds| - 1, At(s, a.pid), a.choice, registry, cap);
      assert !Holds(At(s, a.pid), id);
    }
    forall p ensures !Holds(At(s', p), id) {
      assert !Holds(At(s, p), id);
    }
  }

  /** Nothing comes to be stored under an id that is neither held nor issued. */
  lemma NothingAppears(s: Sys, a: Action, registry: Registry, cap: int, id: string)
    requires Enabled(s, a) && Service.UniqueIds(Now(s).records) && !Reissues(s, a, registry, id)
    requires forall q :: q in Now(s).records ==> q.id != id
    requires a.Step? ==> !Holds(At(s, a.pid), id)
    ensures forall q :: q in Now(Next(s, a, registry, cap)).records ==> q.id != id
  {
    var w := Now(s);
    match a
    case Step(p, ch) =>
      AdvanceRecords(w, |s.worlds| - 1, At(s, p), ch, registry, cap);
      var made := Made(w, At(s, p), ch, registry);
      if made.Some? { Service.UpsertContents(w.records, made.value); }
      else if At(s, p).Settling? { Service.SettleContents(w.records, At(s, p).settled, w.autoclean); }
    case Cleanup => Service.CleanedContents(w.records, w.clock, w.autoclean);
    case _ =>
  }

  /** What is stored under the id, be it a decided record or nothing, outlives a step. */
  lemma UnheldStep(s: Sys, a: Action, registry: Registry, cap: int, id: string)
    requires Enabled(s, a) && Service.UniqueIds(Now(s).records) && Decided(s, id) && NobodyHolds(s, id)
    requires !Reissues(s, a, registry, id)
    ensures Get(Now(Next(s, a, registry, cap)).records, id) == Get(Now(s).records, id)
  {
    if a.Step? { assert !Holds(At(s, a.pid), id); }
    var s' := Next(s, a, registry, cap);
    StepKeepsIdsUnique(s, a, registry, cap);
    Service.GetContents(Now(s).records, id);
    Service.GetContents(Now(s').records, id);
    var found := Get(Now(s).records, id);
    if found.Some? {
      StaysExactlyUnlessOverwritten(s, a, registry, cap, found.value);
    } else {
      NothingAppears(s, a, registry, cap, id);
    }
  }

  /** What an action makes of a state, if it can be taken there. */
  type Move = (Sys, Action) -> Option<Sys>

  /** These actions lead from `s` to `s'`. */
  predicate Leads(s: Sys, actions: seq<Action>, s': Sys, move: Move)
    decreases |actions|
  {
    if actions == [] then s' == s
    else move(s, actions[0]).Some? && Leads(move(s, actions[0]).value, actions[1..], s', move)
  }

  lemma {:induction false} LeadsOn(s: Sys, a: seq<Action>, s1: Sys, b: seq<Action>, s2: Sys, move: Move)
    requires Leads(s, a, s1, move) && Leads(s1, b, s2, move)
    ensures Leads(s, a + b, s2, move)
    decreases |a|
  {
    if a == [] {
      assert a + b == b;
    } else {
      LeadsOn(move(s, a[0]).value, a[1..], s1, b, s2, move);
      assert (a + b)[1..] == a[1..] + b;
    }
  }

  /** The moves of the system that do not issue this id a second time. */
  function Going(registry: Registry, cap: int, id: string): Move {
    (s, a) => if Enabled(s, a) && !Reissues(s, a, registry, id) then Some(Next(s, a, registry, cap)) else None
  }

  /** Some continuation of the system from `s`, in which the id is not issued again, comes to `s'`. */
  ghost predicate CanReach(s: Sys, s': Sys, registry: Registry, cap: int, id: string) {
    exists actions :: Leads(s, actions, s', Going(registry, cap, id))
  }

  lemma StaysPut(s: Sys, registry: Registry, cap: int, id: string)
    ensures CanReach(s, s, registry, cap, id)
  {
    assert Leads(s, [], s, Going(registry, cap, id));
  }

  lemma OneAction(s: Sys, a: Action, s': Sys, registry: Registry, cap: int, id: string)
    requires Enabled(s, a) && !Reissues(s, a, registry, id) && s' == Next(s, a, registry, cap)
    ensures CanReach(s, s', registry, cap, id)
  {
    assert [a][0] == a && [a][1..] == [];
    assert Leads(s, [a], s', Going(registry, cap, id));
  }

  lemma ReachesOn(s: Sys, s1: Sys, s2: Sys, registry: Registry, cap: int, id: string)
    requires CanReach(s, s1, registry, cap, id) && CanReach(s1, s2, registry, cap, id)
    ensures CanReach(s, s2, registry, cap, id)
  {
    var a :| Leads(s, a, s1, Going(registry, cap, id));
    var b :| Leads(s1, b, s2, Going(registry, cap, id));
    LeadsOn(s, a, s1, b, s2, Going(registry, cap, id));
  }

  lemma {:induction false} UnheldDecisionStays(s: Sys, actions: seq<Action>, s': Sys, registry: Registry, cap: int, id: string)
    requires s.worlds != [] && s'.worlds != [] && Leads(s, actions, s', Going(registry, cap, id))
    requires Service.UniqueIds(Now(s).records) && Decided(s, id) && NobodyHolds(s, id)
    ensures Get(Now(s').records, id) == Get(Now(s).records, id)
    decreases |actions|
  {
    if actions != [] {
      var a := actions[0];
      var s1 := Next(s, a, registry, cap);
      StepKeepsIdsUnique(s, a, registry, cap);
      NobodyStartsHolding(s, a, registry, cap, id);
      UnheldStep(s, a, registry, cap, id);
      Service.GetContents(Now(s).records, id);
      Service.GetContents(Now(s1).records, id);
      UnheldDecisionStays(s1, actions[1..], s', registry, cap, id);
    }
  }

  // ---------------------------------------------------------------- somebody holds a copy

  /** Where a run can be: the skill of a copy is registered, a copy is settled only once decided, and a
      job works under a job's key. */
  predicate Fit(pc: Proc, registry: Registry) {
    && (Held(pc).Some? ==> Held(pc).value.step.skillName in registry && (pc.Settling? ==> pc.settled.status != Pending))
    && AtMostOnce.JobKey(pc)
  }

  /** How many steps a holder still takes before it is done. */
  function Rank(pc: Proc): nat {
    match pc
    case Settling(_) => 1
    case RejectLoaded(_, _) => 2
    case Marking(_, _) => 2
    case Running(_, _) => 3
    case ExecSafeMode(_, _) => 4
    case ExecScopes(_, _) => 5
    case Claiming(_, _) => 6
    case CheckingPolicy(_, _) => 7
    case CheckingExpiry(_, _) => 8
    case CheckingSafeMode(_, _) => 9
    case _ => 0
  }

  /** A policy that lets this holder through. */
  function Permissive(pc: Proc, registry: Registry): PermissionsPolicy {
    var scopes := if Held(pc).None? then [] else
      Held(pc).value.scopes
      + (if Held(pc).value.step.skillName in registry then registry[Held(pc).value.step.skillName].requiredScopes else []);
    PermissionsPolicy(true, set scope | scope in scopes, {})
  }

  /** Safe mode off, a permissive policy, and automatic cleaning as asked for. */
  function Eased(w: World, pc: Proc, registry: Registry, autoclean: bool): World {
    w.(safeMode := false, policy := Permissive(pc, registry), autoclean := autoclean)
  }

  const ANY := Choice(RunReturns(""), "", 0)

  lemma LetThrough(pc: Proc, registry: Registry)
    requires Held(pc).Some? && Held(pc).value.step.skillName in registry
    ensures Permissive(pc, registry).CheckScopes(Held(pc).value.scopes).0
    ensures Permissive(pc, registry).CheckScopes(registry[Held(pc).value.step.skillName].requiredScopes).0
  {
  }

  lemma EasedApproves(w: World, now: nat, pc: Proc, registry: Registry, autoclean: bool, cap: int)
    requires InApprove(pc) && Held(pc).Some? && !pc.Settling? && Fit(pc, registry)
    ensures var m := ApproveStep(Eased(w, pc, registry, autoclean), now, pc, cap);
      Held(m.proc).Some? && Held(m.proc).value.id == Held(pc).value.id && Fit(m.proc, registry) && Rank(m.proc) < Rank(pc)
  {
    LetThrough(pc, registry);
  }

  lemma EasedExecutes(w: World, now: nat, pc: Proc, registry: Registry, autoclean: bool)
    requires InForced(pc) && Fit(pc, registry)
    ensures var m := ForcedStep(Eased(w, pc, registry, autoclean), now, pc, ANY, registry);
      Held(m.proc).Some? && Held(m.proc).value.id == Held(pc).value.id && Fit(m.proc, registry) && Rank(m.proc) < Rank(pc)
  {
    LetThrough(pc, registry);
  }

  /** In eased surroundings every holder moves on towards settling. */
  lemma HolderMovesOn(w: World, now: nat, pc: Proc, registry: Registry, autoclean: bool, cap: int)
    requires Held(pc).Some? && !pc.Settling? && Fit(pc, registry)
    ensures var m := Advance(Eased(w, pc, registry, autoclean), now, pc, ANY, registry, cap);
      Held(m.proc).Some? && Held(m.proc).value.id == Held(pc).value.id && Fit(m.proc, registry) && Rank(m.proc) < Rank(pc)
  {
    if InApprove(pc) {
      EasedApproves(w, now, pc, registry, autoclean, cap);
    } else if InForced(pc) {
      EasedExecutes(w, now, pc, registry, autoclean);
    }
  }

  /** The same system in eased surroundings. */
  function EasedFor(s: Sys, p: nat, registry: Registry, autoclean: bool): Sys
    requires s.worlds != []
  {
    s.(worlds := s.worlds + [Eased(Now(s), At(s, p), registry, autoclean)])
  }

  lemma Eases(s: Sys, p: nat, autoclean: bool, registry: Registry, cap: int, id: string)
    requires s.worlds != []
    ensures CanReach(s, EasedFor(s, p, registry, autoclean), registry, cap, id)
  {
    var ease := Environment(0, false, Permissive(At(s, p), registry), autoclean);
    OneAction(s, ease, EasedFor(s, p, registry, autoclean), registry, cap, id);
  }

  lemma HolderSteps(s: Sys, p: nat, m: Moved, registry: Registry, cap: int, id: string)
    requires s.worlds != [] && Holds(At(s, p), id) && m == Advance(Now(s), |s.worlds| - 1, At(s, p), ANY, registry, cap)
    ensures CanReach(s, Apply(s, p, m), registry, cap, id)
  {
    HolderMakesNothing(Now(s), At(s, p), registry);
    OneAction(s, Step(p, ANY), Apply(s, p, m), registry, cap, id);
  }

  /** The surroundings are eased, then process `p` takes a step. */
  lemma EaseAndStep(s: Sys, p: nat, autoclean: bool, registry: Registry, cap: int, id: string) returns (s': Sys, m: Moved)
    requires s.worlds != [] && Holds(At(s, p), id)
    ensures CanReach(s, s', registry, cap, id)
    ensures m == Advance(Eased(Now(s), At(s, p), registry, autoclean), |s.worlds|, At(s, p), ANY, registry, cap)
    ensures s' == Apply(EasedFor(s, p, registry, autoclean), p, m)
  {
    var s1 := EasedFor(s, p, registry, autoclean);
    m := Advance(Now(s1), |s.worlds|, At(s1, p), ANY, registry, cap);
    s' := Apply(s1, p, m);
    Eases(s, p, autoclean, registry, cap, id);
    HolderSteps(s1, p, m, registry, cap, id);
    ReachesOn(s, s1, s', registry, cap, id);
  }

  lemma HolderMakesNothing(w: World, pc: Proc, registry: Registry)
    requires Held(pc).Some?
    ensures Made(w, pc, ANY, registry).None?
  {
  }

  /** The id is stored nowhere under automatic cleaning, and otherwise it is. */
  ghost predicate StoredUnless(w: World, id: string, autoclean: bool) {
    autoclean <==> forall q :: q in w.records ==> q.id != id
  }

  lemma SettledIsStored(w: World, now: nat, pc: Proc, registry: Registry, autoclean: bool, cap: int)
    requires pc.Settling? && pc.settled.status != Pending
    ensures StoredUnless(Advance(Eased(w, pc, registry, autoclean), now, pc, ANY, registry, cap).world, pc.settled.id, autoclean)
  {
    DeleteContents(w.records, pc.settled.id);
    Service.UpsertIsFound(w.records, pc.settled);
    assert !autoclean ==> pc.settled in Upsert(w.records, pc.settled);
  }

  /** Whoever holds a copy can still remove what is stored under its id, and can still store something
      there: there is a continuation after which it is gone, and one after which it is not. */
  lemma {:induction false} HolderCanSettle(s: Sys, p: nat, autoclean: bool, registry: Registry, cap: int, id: string) returns (s': Sys)
    requires s.worlds != [] && Holds(At(s, p), id) && Fit(At(s, p), registry)
    ensures s'.worlds != [] && CanReach(s, s', registry, cap, id) && StoredUnless(Now(s'), id, autoclean)
    decreases Rank(At(s, p))
  {
    var pc := At(s, p);
    var m;
    s', m := EaseAndStep(s, p, autoclean, registry, cap, id);
    if pc.Settling? {
      SettledIsStored(Now(s), |s.worlds|, pc, registry, autoclean, cap);
    } else {
      HolderMovesOn(Now(s), |s.worlds|, pc, registry, autoclean, cap);
      var s1 := s';
      s' := HolderCanSettle(s1, p, autoclean, registry, cap, id);
      ReachesOn(s, s1, s', registry, cap, id);
    }
  }

  // ---------------------------------------------------------------- the exact condition

  /** Every stored record names a registered skill, and every copy held is fit. */
  ghost predicate Orderly(s: Sys, registry: Registry) {
    && s.worlds != [] && Service.UniqueIds(Now(s).records)
    && (forall q :: q in Now(s).records ==> q.step.skillName in registry)
    && (forall p :: Fit(At(s, p), registry))
  }

  lemma SettledIsDecided(w: World, now: nat, pc: Proc, ch: Choice, registry: Registry, cap: int)
    requires Fit(pc, registry)
    ensures var to := Advance(w, now, pc, ch, registry, cap).proc; to.Settling? ==> to.settled.status != Pending
  {
    if InApprove(pc) {
      ApproveSettlesDecided(w, now, pc, registry, cap);
    } else if InChat(pc) {
      NotHeldInChat(w, now, pc, ch, registry);
    }
  }

  lemma ApproveSettlesDecided(w: World, now: nat, pc: Proc, registry: Registry, cap: int)
    requires InApprove(pc) && Fit(pc, registry)
    ensures var to := ApproveStep(w, now, pc, cap).proc; to.Settling? ==> to.settled.status != Pending
  {
  }

  lemma RecordsStayRegistered(w: World, pc: Proc, ch: Choice, registry: Registry)
    requires Service.UniqueIds(w.records) && Fit(pc, registry) && forall q :: q in w.records ==> q.step.skillName in registry
    ensures forall q :: q in RecordsAfter(w, pc, ch, registry) ==> q.step.skillName in registry
  {
    MadeIsPending(w, pc, ch, registry);
    var made := Made(w, pc, ch, registry);
    if made.Some? { Service.UpsertContents(w.records, made.value); }
    else if pc.Settling? { Service.SettleContents(w.records, pc.settled, w.autoclean); }
  }

  lemma {:induction false} CleanedStayRegistered(records: seq<Approval>, now: int, autoclean: bool, registry: Registry)
    requires forall q :: q in records ==> q.step.skillName in registry
    ensures forall q :: q in Cleaned(records, now, autoclean) ==> q.step.skillName in registry
  {
    if records != [] {
      assert records == records[..|records| - 1] + [records[|records| - 1]];
      CleanedStayRegistered(records[..|records| - 1], now, autoclean, registry);
    }
  }

  lemma StaysFit(s: Sys, p: nat, ch: Choice, registry: Registry, cap: int)
    requires Orderly(s, registry)
    ensures Fit(Advance(Now(s), |s.worlds| - 1, At(s, p), ch, registry, cap).proc, registry)
  {
    assert Fit(At(s, p), registry);
    HeldComesFrom(Now(s), |s.worlds| - 1, At(s, p), ch, registry, cap);
    SettledIsDecided(Now(s), |s.worlds| - 1, At(s, p), ch, registry, cap);
    AtMostOnce.StepKeepsKinds(Now(s), |s.worlds| - 1, At(s, p), ch, registry, cap);
  }

  lemma StepStaysOrderly(s: Sys, a: Action, registry: Registry, cap: int)
    requires Orderly(s, registry) && Enabled(s, a)
    ensures Orderly(Next(s, a, registry, cap), registry)
  {
    var s', w := Next(s, a, registry, cap), Now(s);
    StepKeepsIdsUnique(s, a, registry, cap);
    if a.Step? {
      assert Fit(At(s, a.pid), registry);
      AdvanceRecords(w, |s.worlds| - 1, At(s, a.pid), a.choice, registry, cap);
      RecordsStayRegistered(w, At(s, a.pid), a.choice, registry);
      StaysFit(s, a.pid, a.choice, registry, cap);
    } else if a.Cleanup? {
      CleanedStayRegistered(w.records, w.clock, w.autoclean, registry);
    }
    forall p ensures Fit(At(s', p), registry) {
      assert Fit(At(s, p), registry);
    }
  }

  lemma {:induction false} RunsAreOrderly(states: seq<Sys>, actions: seq<Action>, registry: Registry, cap: int, n: nat)
    requires IsRun(states, actions, registry, cap) && n < |states|
    ensures Orderly(states[n], registry)
  {
    if n > 0 {
      RunsAreOrderly(states, actions, registry, cap, n - 1);
      StepStaysOrderly(states[n - 1], actions[n - 1], registry, cap);
    }
  }

  /** However the system goes on from `s` without issuing the id again, what is stored under it stays. */
  ghost predicate Final(s: Sys, registry: Registry, cap: int, id: string)
    requires s.worlds != []
  {
    forall s': Sys :: s'.worlds != [] && CanReach(s, s', registry, cap, id) ==> Get(Now(s').records, id) == Get(Now(s).records, id)
  }

  lemma HolderUnsettles(s: Sys, p: nat, registry: Registry, cap: int, id: string)
    requires Orderly(s, registry) && Holds(At(s, p), id)
    ensures !Final(s, registry, cap, id)
  {
    var found := Get(Now(s).records, id);
    assert Fit(At(s, p), registry);
    var s' := HolderCanSettle(s, p, found.Some?, registry, cap, id);
    assert Get(Now(s').records, id).None? <==> forall q :: q in Now(s').records ==> q.id != id;
  }

  /** Main result, with automatic cleaning on or off: at any point of any run, once no record under the
      id is pending, what the store holds there, be it the decided record or nothing after cleaning,
      never changes again in any continuation, exactly when no approve or reject in flight holds a copy. */
  lemma DecidedIsFinalExactlyWhenUnheld(run: seq<Sys>, runActions: seq<Action>, registry: Registry, cap: int, n: nat, id: string)
    requires IsRun(run, runActions, registry, cap) && n < |run|
    requires run[n].worlds != [] && Decided(run[n], id)
    ensures Final(run[n], registry, cap, id) <==> NobodyHolds(run[n], id)
  {
    var s := run[n];
    RunsAreOrderly(run, runActions, registry, cap, n);
    if NobodyHolds(s, id) {
      forall s': Sys | s'.worlds != [] && CanReach(s, s', registry, cap, id) ensures Get(Now(s').records, id) == Get(Now(s).records, id) {
        var actions :| Leads(s, actions, s', Going(registry, cap, id));
        UnheldDecisionStays(s, actions, s', registry, cap, id);
      }
    } else {
      var p :| Holds(At(s, p), id);
      HolderUnsettles(s, p, registry, cap, id);
    }
  }
}
