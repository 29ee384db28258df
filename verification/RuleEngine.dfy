/** The rule engine: matching, the action loop with its cap, ledger and policy gates, cooldown, and
    the dry-run preview that plans without acting. */
module RuleEngine {
  import opened Sequences
  import opened Ledger
  import opened Policy
  import opened Approvals
  import opened RuleCursors

  datatype RuleAct = Notify(title: string) | Propose(skillName: string, args: string, rationale: string)

  /** The fixed part of a rule; empty `contains` texts are absent conditions. */
  datatype Rule = Rule(id: string, contains: string, notContains: string, actions: seq<RuleAct>,
                       maxActions: int, cooldown: int)

  /** What one evaluation finds around it; the `later` pair is what `create_pending` reads, and
      `unsendable` holds the positions of the notifications whose `send` raises. */
  datatype Env = Env(now: int, safeMode: bool, policy: PermissionsPolicy, laterSafeMode: bool,
                     laterPolicy: PermissionsPolicy, ttl: int, freshIds: seq<string>, unsendable: set<nat>)

  /** What loading the trigger's items comes to: the items, a service known to be degraded, or any
      other exception. */
  datatype Trigger = Fetched(items: seq<Item>) | Degraded | LoadRaised

  // ---------------------------------------------------------------- matching

  predicate Within(sub: string, text: string) {
    exists i :: 0 <= i <= |text| && sub <= text[i..]
  }

  predicate Matches(rule: Rule, item: Item) {
    && (rule.contains != "" ==> Within(rule.contains, item.text))
    && (rule.notContains != "" ==> !Within(rule.notContains, item.text))
  }

  function Matching(rule: Rule, items: seq<Item>): seq<Item> {
    if items == [] then []
    else
      var before, last := Matching(rule, items[..|items| - 1]), items[|items| - 1];
      if Matches(rule, last) then before + [last] else before
  }

  method MatchingItems(rule: Rule, items: seq<Item>) returns (matches: seq<Item>)
    ensures matches == Matching(rule, items)
  {
    if rule.contains == "" && rule.notContains == "" {
      EverythingMatches(rule, items);
      return items;
    }
    matches := [];
    for i := 0 to |items|
      invariant matches == Matching(rule, items[..i])
    {
      assert items[..i + 1][..i] == items[..i];
      if rule.contains != "" && !Within(rule.contains, items[i].text) { continue; }
      if rule.notContains != "" && Within(rule.notContains, items[i].text) { continue; }
      matches := matches + [items[i]];
    }
    assert items[..|items|] == items;
  }

  lemma {:induction false} EverythingMatches(rule: Rule, items: seq<Item>)
    requires rule.contains == "" && rule.notContains == ""
    ensures Matching(rule, items) == items
  {
    if items != [] {
      EverythingMatches(rule, items[..|items| - 1]);
    }
  }

  // ---------------------------------------------------------------- the action loop

  function ProposalKey(ruleId: string, index: nat, itemId: string, act: RuleAct): Key
    requires act.Propose?
  {
    RuleAction(ruleId, index, itemId, act.skillName, act.args, act.rationale)
  }

  function StartProposal(ruleId: string, index: nat, itemId: string, act: RuleAct, now: int): Op
    requires act.Propose?
  {
    Start(ProposalKey(ruleId, index, itemId, act), RuleActionKind, now, None, map["rule_id" := ruleId, "item_id" := itemId])
  }

  function MarkProposal(ruleId: string, index: nat, itemId: string, act: RuleAct, created: bool, now: int): Op
    requires act.Propose?
  {
    Mark(ProposalKey(ruleId, index, itemId, act), if created then Succeeded else Failed, now, map[])
  }

  function ProposedStep(act: RuleAct): PlanStep
    requires act.Propose?
  {
    PlanStep("", act.skillName, act.args, true)
  }

  /** The rules allowlist and the scopes, as the engine's own policy sees them. */
  predicate PolicyAllows(registry: Registry, policy: PermissionsPolicy, act: RuleAct)
    requires act.Propose?
  {
    var scopes := RuleScopes(registry, act.skillName);
    policy.CheckRulesAllowlist(scopes).0 && policy.CheckScopes(scopes).0
  }

  function FreshId(env: Env, i: nat): string {
    if i < |env.freshIds| then env.freshIds[i] else ""
  }

  function Proposed(registry: Registry, env: Env, act: RuleAct, i: nat): Option<Approval>
    requires act.Propose?
  {
    NewApproval(registry, ProposedStep(act), RuleScopes(registry, act.skillName), env.laterPolicy, env.laterSafeMode,
                env.now, env.ttl, FreshId(env, i))
  }

  /** The files and the progress of the loop; `failed` once a notifier or `create_pending` has raised. */
  datatype Loop = Loop(log: Log, records: seq<Approval>, sent: seq<string>, executed: seq<RuleAct>, failed: bool)

  predicate Stopped(l: Loop, rule: Rule) {
    l.failed || |l.executed| >= rule.maxActions
  }

  /** A proposal whose key the ledger has granted. */
  function Granted(l: Loop, rule: Rule, env: Env, registry: Registry, cap: int, i: nat, itemId: string, act: RuleAct): Loop
    requires act.Propose?
  {
    var failed := MarkProposal(rule.id, i, itemId, act, false, env.now);
    if !PolicyAllows(registry, env.policy, act) then l.(log := Perform(l.log, failed, cap))
    else
      match Proposed(registry, env, act, i)
      case None => l.(log := Perform(l.log, failed, cap), failed := true)
      case Some(a) =>
        l.(records := Upsert(l.records, a), executed := l.executed + [act],
           log := Perform(l.log, MarkProposal(rule.id, i, itemId, act, true, env.now), cap))
  }

  function ActStep(l: Loop, rule: Rule, env: Env, registry: Registry, cap: int, i: nat, itemId: string): Loop
    requires i < |rule.actions|
  {
    if Stopped(l, rule) then l
    else
      match rule.actions[i]
      case Notify(title) =>
        if i in env.unsendable then l.(failed := true)
        else l.(sent := l.sent + [title], executed := l.executed + [rule.actions[i]])
      case Propose(_, _, _) =>
        var start := StartProposal(rule.id, i, itemId, rule.actions[i], env.now);
        if env.safeMode || !Accepts(l.log.file, start) then l
        else Granted(l.(log := Perform(l.log, start, cap)), rule, env, registry, cap, i, itemId, rule.actions[i])
  }

  /** The first `n` actions. */
  function RunActions(l: Loop, rule: Rule, env: Env, registry: Registry, cap: int, n: nat, itemId: string): Loop
    requires n <= |rule.actions|
  {
    if n == 0 then l else ActStep(RunActions(l, rule, env, registry, cap, n - 1, itemId), rule, env, registry, cap, n - 1, itemId)
  }

  // ---------------------------------------------------------------- one evaluation

  datatype Memory = Memory(cursor: Cursor, cooldownUntil: Option<int>, lastRun: Option<int>, lastMatch: Option<int>)

  datatype RunResult = RunResult(ok: bool, matched: bool, matchCount: nat)

  datatype Evaluated = Evaluated(loop: Loop, memory: Memory, result: RunResult)

  predicate CooldownActive(rule: Rule, m: Memory, now: int) {
    rule.cooldown > 0 && m.cooldownUntil.Some? && m.cooldownUntil.value > now
  }

  /** No items at all when the service is degraded. */
  function Candidates(m: Memory, trigger: Trigger): seq<Item> {
    if trigger.Fetched? then FilterNew(m.cursor, trigger.items) else []
  }

  function EvaluateOnce(l: Loop, m: Memory, rule: Rule, env: Env, registry: Registry, cap: int, trigger: Trigger): Evaluated {
    var ran := m.(lastRun := Some(env.now));
    if CooldownActive(rule, m, env.now) then Evaluated(l, ran, RunResult(true, false, 0))
    else if trigger.LoadRaised? then Evaluated(l, ran, RunResult(false, false, 0))
    else
      var candidates := Candidates(m, trigger);
      var matches := Matching(rule, candidates);
      if matches == [] then Evaluated(l, ran.(cursor := Update(m.cursor, candidates)), RunResult(true, false, 0))
      else
        var l' := RunActions(l, rule, env, registry, cap, |rule.actions|, matches[0].id);
        if l'.failed then Evaluated(l', ran, RunResult(false, false, 0))
        else
          var until := if rule.cooldown > 0 && |l'.executed| > 0 then Some(env.now + rule.cooldown) else m.cooldownUntil;
          Evaluated(l', Memory(Update(m.cursor, candidates), until, Some(env.now), Some(env.now)),
                    RunResult(true, true, |matches|))
  }

  class Engine {
    const ledger: ExecutionLedger
    const store: ApprovalStore
    const registry: Registry
    var sent: seq<string>

    constructor (ledger: ExecutionLedger, store: ApprovalStore, registry: Registry)
      ensures this.ledger == ledger && this.store == store && this.registry == registry && sent == []
    {
      this.ledger, this.store, this.registry, sent := ledger, store, registry, [];
    }

    ghost function Files(executed: seq<RuleAct>, failed: bool): Loop reads this, ledger, store {
      Loop(ledger.AsLog(), store.file, sent, executed, failed)
    }

    /** Claims the proposal's key, checks the policy, creates the approval and reports. */
    method ProposeStep(rule: Rule, env: Env, i: nat, itemId: string, executed: seq<RuleAct>)
      returns (executed': seq<RuleAct>, failed: bool)
      requires ledger.Valid() && i < |rule.actions| && rule.actions[i].Propose? && |executed| < rule.maxActions
      modifies ledger, store
      ensures ledger.Valid()
      ensures Files(executed', failed)
           == ActStep(old(Files(executed, false)), rule, env, registry, ledger.maxRecords, i, itemId)
    {
      executed', failed := executed, false;
      if env.safeMode { return; }
      var act := rule.actions[i];
      var op := StartProposal(rule.id, i, itemId, act, env.now);
      StartableMeansCanStart(ledger.history, ledger.maxRecords, op.key);
      var started := ledger.TryStart(op.key, op.kind, op.ts, op.correlation, op.meta);
      if !started { return; }
      if !PolicyAllows(registry, env.policy, act) {
        ledger.MarkKey(op.key, Failed, env.now, map[]);
        return;
      }
      var made := Proposed(registry, env, act, i);
      if made.None? {
        ledger.MarkKey(op.key, Failed, env.now, map[]);
        failed := true;
        return;
      }
      store.UpsertRecord(made.value);
      ledger.MarkKey(op.key, Succeeded, env.now, map[]);
      executed' := executed + [act];
    }

    method RunAllActions(rule: Rule, env: Env, itemId: string) returns (executed: seq<RuleAct>, failed: bool)
      requires ledger.Valid()
      modifies `sent, ledger, store
      ensures ledger.Valid()
      ensures Files(executed, failed)
           == RunActions(old(Files([], false)), rule, env, registry, ledger.maxRecords, |rule.actions|, itemId)
    {
      executed, failed := [], false;
      for i := 0 to |rule.actions|
        invariant ledger.Valid()
        invariant Files(executed, failed)
               == RunActions(old(Files([], false)), rule, env, registry, ledger.maxRecords, i, itemId)
      {
        if !failed && |executed| < rule.maxActions {
          if rule.actions[i].Notify? {
            if i in env.unsendable {
              failed := true;
            } else {
              sent := sent + [rule.actions[i].title];
              executed := executed + [rule.actions[i]];
            }
          } else {
            executed, failed := ProposeStep(rule, env, i, itemId, executed);
          }
        }
      }
    }

    ghost function MemoryOf(state: RuleState): Memory reads state {
      Memory(state.AsCursor(), state.cooldownUntil, state.lastRun, state.lastMatch)
    }

    /** Acts on the matches: runs the actions, then notes the match and starts the cooldown. */
    method ActOn(rule: Rule, state: RuleState, env: Env, itemId: string) returns (executed: seq<RuleAct>, failed: bool)
      requires ledger.Valid()
      modifies this, state, ledger, store
      ensures ledger.Valid()
      ensures Files(executed, failed)
           == RunActions(old(Files([], false)), rule, env, registry, ledger.maxRecords, |rule.actions|, itemId)
      ensures MemoryOf(state) == if failed then old(MemoryOf(state)) else
        old(MemoryOf(state)).(lastMatch := Some(env.now),
                              cooldownUntil := if rule.cooldown > 0 && |executed| > 0 then Some(env.now + rule.cooldown)
                                               else old(MemoryOf(state)).cooldownUntil)
    {
      executed, failed := RunAllActions(rule, env, itemId);
      if !failed {
        state.lastMatch := Some(env.now);
        if rule.cooldown > 0 && |executed| > 0 {
          state.cooldownUntil := Some(env.now + rule.cooldown);
        }
      }
    }

    /** One evaluation of a rule. One that any exception ends leaves the cursor and the cooldown as they were. */
    method EvaluateRule(rule: Rule, state: RuleState, env: Env, trigger: Trigger)
      returns (result: RunResult, executed: seq<RuleAct>, failed: bool)
      requires ledger.Valid()
      modifies this, state, ledger, store
      ensures ledger.Valid()
      ensures Evaluated(Files(executed, failed), MemoryOf(state), result)
           == EvaluateOnce(old(Files([], false)), old(MemoryOf(state)), rule, env, registry, ledger.maxRecords, trigger)
    {
      executed, failed := [], false;
      ghost var before := MemoryOf(state);
      var cooling := rule.cooldown > 0 && state.cooldownUntil.Some? && state.cooldownUntil.value > env.now;
      state.lastRun := Some(env.now);
      if cooling { return RunResult(true, false, 0), executed, failed; }
      if trigger.LoadRaised? { return RunResult(false, false, 0), executed, failed; }
      var candidates: seq<Item> := [];
      if trigger.Fetched? { candidates := state.FilterNewItems(trigger.items); }
      assert candidates == Candidates(before, trigger);
      var matches := MatchingItems(rule, candidates);
      result := RunResult(true, matches != [], |matches|);
      if matches != [] {
        executed, failed := ActOn(rule, state, env, matches[0].id);
        if failed { return RunResult(false, false, 0), executed, failed; }
      }
      state.UpdateCursors(candidates);
    }
  }

  // ---------------------------------------------------------------- preview

  /** A planned action; a blocked proposal would create no approval. */
  datatype Planned = Planned(act: RuleAct, blocked: bool)

  predicate Blocked(registry: Registry, env: Env, act: RuleAct) {
    act.Propose? && (env.safeMode || !PolicyAllows(registry, env.policy, act))
  }

  /** The plan after looking at the first `n` actions; blocked ones take up room in it. */
  function Plan(rule: Rule, env: Env, registry: Registry, n: nat): seq<Planned>
    requires n <= |rule.actions|
  {
    if n == 0 then []
    else
      var before := Plan(rule, env, registry, n - 1);
      if |before| >= rule.maxActions then before
      else before + [Planned(rule.actions[n - 1], Blocked(registry, env, rule.actions[n - 1]))]
  }

  method PlanActions(rule: Rule, matches: seq<Item>, env: Env, registry: Registry) returns (planned: seq<Planned>)
    ensures planned == if matches == [] then [] else Plan(rule, env, registry, |rule.actions|)
  {
    planned := [];
    if matches == [] { return; }
    for i := 0 to |rule.actions|
      invariant planned == Plan(rule, env, registry, i)
    {
      if |planned| < rule.maxActions {
        var act := rule.actions[i];
        var blocked := false;
        if act.Propose? {
          if env.safeMode {
            blocked := true;
          } else {
            var scopes := RuleScopes(registry, act.skillName);
            if !env.policy.CheckRulesAllowlist(scopes).0 {
              blocked := true;
            } else if !env.policy.CheckScopes(scopes).0 {
              blocked := true;
            }
          }
        }
        planned := planned + [Planned(act, blocked)];
      }
    }
  }

  /** The dry run: the evaluation's own matching and cooldown test, then the plan. */
  function Preview(m: Memory, rule: Rule, env: Env, registry: Registry, trigger: Trigger): seq<Planned> {
    if CooldownActive(rule, m, env.now) || Matching(rule, Candidates(m, trigger)) == [] then []
    else Plan(rule, env, registry, |rule.actions|)
  }
}
