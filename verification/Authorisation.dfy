/** Every write is authorised: in any interleaving a write skill runs only inside `approve`, on a
    record that was pending and not expired when approve looked, with the skill's scopes enabled and
    safe mode off when the executor looked. */
module Authorisation {
  import opened Policy
  import opened Approvals
  import opened Interleaving

  /** The record was read from the store as pending. */
  ghost predicate WasPending(worlds: seq<World>, r: Approval, t: Times) {
    t.loaded < |worlds| && r in worlds[t.loaded].records && r.status == Pending
  }

  /** Later, at the expiry check, it had not expired. */
  ghost predicate WasUnexpired(worlds: seq<World>, r: Approval, t: Times) {
    WasPending(worlds, r, t) && t.loaded <= t.expiry < |worlds| && !IsExpired(r, worlds[t.expiry].clock)
  }

  /** Later, in the executor's step, every scope its skill requires was enabled. */
  ghost predicate HadScopes(worlds: seq<World>, registry: Registry, r: Approval, t: Times) {
    && WasUnexpired(worlds, r, t)
    && t.expiry <= t.scopes < |worlds|
    && r.step.skillName in registry
    && forall scope :: scope in registry[r.step.skillName].requiredScopes
         ==> worlds[t.scopes].policy.IsScopeEnabled(scope)
  }

  /** Later, still in the executor's step, safe mode was off if the skill writes. */
  ghost predicate Authorised(worlds: seq<World>, registry: Registry, r: Approval, t: Times) {
    && HadScopes(worlds, registry, r, t)
    && t.scopes <= t.safe < |worlds|
    && (registry[r.step.skillName].writes ==> !worlds[t.safe].safeMode)
  }

  ghost predicate ProcOk(worlds: seq<World>, registry: Registry, pc: Proc) {
    match pc
    case CheckingSafeMode(r, t) => WasPending(worlds, r, t)
    case CheckingExpiry(r, t) => WasPending(worlds, r, t)
    case CheckingPolicy(r, t) => WasUnexpired(worlds, r, t)
    case Claiming(r, t) => WasUnexpired(worlds, r, t)
    case ExecScopes(r, t) => WasUnexpired(worlds, r, t)
    case ExecSafeMode(r, t) => HadScopes(worlds, registry, r, t)
    case Running(r, t) => Authorised(worlds, registry, r, t)
    case ChatRun(steps) =>
      steps != [] ==> steps[0].skillName in registry && !registry[steps[0].skillName].writes
    case _ => true
  }

  /** A run of a write skill carries its authorisation, earlier than the run itself. */
  ghost predicate EventOk(worlds: seq<World>, registry: Registry, e: Event) {
    e.Finished? && e.ran && Writes(registry, Run(e.step.skillName, e.step.args)) ==>
      && e.force && e.approval.Some? && e.approval.value.step == e.step
      && Authorised(worlds, registry, e.approval.value, e.t)
      && e.t.safe <= e.at < |worlds|
  }

  /** What was observed stays observed. */
  lemma ProcPersists(worlds: seq<World>, w: World, registry: Registry, pc: Proc)
    requires ProcOk(worlds, registry, pc)
    ensures ProcOk(worlds + [w], registry, pc)
  {
    assert forall i :: 0 <= i < |worlds| ==> (worlds + [w])[i] == worlds[i];
  }

  lemma EventPersists(worlds: seq<World>, w: World, registry: Registry, e: Event)
    requires EventOk(worlds, registry, e)
    ensures EventOk(worlds + [w], registry, e)
  {
    assert forall i :: 0 <= i < |worlds| ==> (worlds + [w])[i] == worlds[i];
  }

  ghost predicate MoveOk(worlds: seq<World>, registry: Registry, m: Moved) {
    && ProcOk(worlds, registry, m.proc)
    && (m.event.Some? ==> EventOk(worlds, registry, m.event.value))
  }

  lemma ApproveAuthorised(worlds: seq<World>, pc: Proc, registry: Registry, cap: int)
    requires worlds != [] && ProcOk(worlds, registry, pc) && InApprove(pc)
    ensures MoveOk(worlds, registry, ApproveStep(worlds[|worlds| - 1], |worlds| - 1, pc, cap))
  {
  }

  lemma ForcedAuthorised(worlds: seq<World>, pc: Proc, ch: Choice, registry: Registry)
    requires worlds != [] && ProcOk(worlds, registry, pc) && InForced(pc)
    ensures MoveOk(worlds, registry, ForcedStep(worlds[|worlds| - 1], |worlds| - 1, pc, ch, registry))
  {
  }

  lemma ChatAuthorised(worlds: seq<World>, pc: Proc, ch: Choice, registry: Registry)
    requires worlds != [] && ProcOk(worlds, registry, pc) && InChat(pc)
    ensures MoveOk(worlds, registry, ChatStep(worlds[|worlds| - 1], |worlds| - 1, pc, ch, registry))
  {
  }

  lemma AdvanceAuthorised(worlds: seq<World>, pc: Proc, ch: Choice, registry: Registry, cap: int)
    requires worlds != [] && ProcOk(worlds, registry, pc)
    ensures MoveOk(worlds, registry, Advance(worlds[|worlds| - 1], |worlds| - 1, pc, ch, registry, cap))
  {
    if InApprove(pc) {
      ApproveAuthorised(worlds, pc, registry, cap);
    } else if InForced(pc) {
      ForcedAuthorised(worlds, pc, ch, registry);
    } else if InChat(pc) {
      ChatAuthorised(worlds, pc, ch, registry);
    }
  }

  ghost predicate Inv(s: Sys, registry: Registry) {
    && s.worlds != []
    && (forall p :: ProcOk(s.worlds, registry, At(s, p)))
    && (forall e :: e in s.trace ==> EventOk(s.worlds, registry, e))
  }

  /** A new world keeps the invariant when whatever changed is fine in the old worlds. */
  lemma ExtendInv(s: Sys, s': Sys, w: World, registry: Registry)
    requires Inv(s, registry) && s'.worlds == s.worlds + [w]
    requires forall p :: At(s', p) == At(s, p) || ProcOk(s.worlds, registry, At(s', p))
    requires forall e :: e in s'.trace ==> e in s.trace || EventOk(s.worlds, registry, e)
    ensures Inv(s', registry)
  {
    forall p ensures ProcOk(s'.worlds, registry, At(s', p)) {
      assert ProcOk(s.worlds, registry, At(s, p));
      ProcPersists(s.worlds, w, registry, At(s', p));
    }
    forall e | e in s'.trace ensures EventOk(s'.worlds, registry, e) {
      EventPersists(s.worlds, w, registry, e);
    }
  }

  lemma InvPreserved(s: Sys, a: Action, registry: Registry, cap: int)
    requires Inv(s, registry) && Enabled(s, a)
    ensures Inv(Next(s, a, registry, cap), registry)
  {
    var s' := Next(s, a, registry, cap);
    if a.Step? {
      AdvanceAuthorised(s.worlds, At(s, a.pid), a.choice, registry, cap);
      var m := Advance(Now(s), |s.worlds| - 1, At(s, a.pid), a.choice, registry, cap);
      assert s' == Apply(s, a.pid, m);
    }
    ExtendInv(s, s', s'.worlds[|s.worlds|], registry);
  }

  /** Main result: over every interleaving, each run of a write skill on record is authorised. */
  lemma {:induction false} EveryWriteIsAuthorised(states: seq<Sys>, actions: seq<Action>, registry: Registry, cap: int, n: nat)
    requires IsRun(states, actions, registry, cap) && n < |states|
    ensures forall e :: e in states[n].trace ==> EventOk(states[n].worlds, registry, e)
    ensures Inv(states[n], registry)
  {
    if n > 0 {
      EveryWriteIsAuthorised(states, actions, registry, cap, n - 1);
      InvPreserved(states[n - 1], actions[n - 1], registry, cap);
    }
  }
}
