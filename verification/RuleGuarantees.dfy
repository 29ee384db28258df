/** What the rule engine promises: the preview agrees with the evaluation, actions are capped, and
    the cooldown bounds the rate of firing. */
module RuleGuarantees {
  import opened Elapsed
  import opened Sequences
  import opened Ledger
  import opened Policy
  import opened RuleCursors
  import opened RuleEngine

  // ---------------------------------------------------------------- preview against evaluation

  /** Python's `s[:m]` for a count that may be negative. */
  function First<T>(s: seq<T>, m: int): seq<T> {
    if m <= 0 then [] else if m < |s| then s[..m] else s
  }

  function Unblocked(registry: Registry, env: Env, acts: seq<RuleAct>): seq<RuleAct> {
    if acts == [] then []
    else
      var before, last := Unblocked(registry, env, acts[..|acts| - 1]), acts[|acts| - 1];
      if Blocked(registry, env, last) then before else before + [last]
  }

  /** The actions of the plan that are not blocked. */
  function Effective(planned: seq<Planned>): seq<RuleAct> {
    if planned == [] then []
    else
      var before, last := Effective(planned[..|planned| - 1]), planned[|planned| - 1];
      if last.blocked then before else before + [last.act]
  }

  /** One policy and one safe mode throughout the evaluation. */
  predicate Unchanging(env: Env) {
    env.laterPolicy == env.policy && env.laterSafeMode == env.safeMode
  }

  /** Nothing raises when the action at position `i` is carried out: a notification can be sent, and a
      proposal names a registered write skill. */
  predicate Performable(registry: Registry, env: Env, act: RuleAct, i: nat) {
    match act
    case Notify(_) => i !in env.unsendable
    case Propose(skillName, _, _) => skillName != "" && skillName in registry && registry[skillName].writes
  }

  /** The setting in which a preview can be exact: nothing changes, and nothing raises. */
  ghost predicate Steady(rule: Rule, env: Env, registry: Registry) {
    Unchanging(env) && forall i :: 0 <= i < |rule.actions| ==> Performable(registry, env, rule.actions[i], i)
  }

  predicate OpenFor(log: Log, rule: Rule, env: Env, itemId: string, i: nat)
    requires i < |rule.actions|
  {
    rule.actions[i].Propose? ==> Accepts(log.file, StartProposal(rule.id, i, itemId, rule.actions[i], env.now))
  }

  /** No proposal from position `from` on would be refused by the ledger. */
  ghost predicate NoHits(log: Log, rule: Rule, env: Env, itemId: string, from: nat) {
    forall i :: from <= i < |rule.actions| ==> OpenFor(log, rule, env, itemId, i)
  }

  /** Operations on other keys, trimmed or not, never close an open key. */
  lemma OpenStaysOpen(l: Log, other: Op, op: Op, cap: int)
    requires op.Start? && Accepts(l.file, op) && other.key != op.key
    ensures Accepts(Perform(l, other, cap).file, op)
  {
    if Accepts(l.file, other) {
      var more := l.file + [NewRecord(l.file, other)];
      assert more[..|l.file|] == l.file;
      assert Latest(more, op.key) == Latest(l.file, op.key);
      LatestInWindow(more, cap, op.key);
    }
  }

  /** The record that closes `k` outlives `more` further records. */
  predicate Lasts(file: seq<Record>, k: Key, cap: int, more: nat) {
    0 <= LatestIndex(file, k) && (cap <= 0 || |file| - LatestIndex(file, k) + more <= cap)
  }

  lemma IndexInWindow(h: seq<Record>, cap: int, k: Key)
    requires WindowStart(h, cap) <= LatestIndex(h, k)
    ensures LatestIndex(Window(h, cap), k) == LatestIndex(h, k) - WindowStart(h, cap)
  {
    WindowIsSuffix(h, cap);
    var i, start, w := LatestIndex(h, k), WindowStart(h, cap), Window(h, cap);
    assert w[i - start] == h[i] && forall j :: i - start < j < |w| ==> w[j] == h[start + j];
  }

  /** Operations on other keys keep a closed key closed for as long as its record lasts. */
  lemma ClosedStaysClosed(l: Log, other: Op, op: Op, cap: int, more: nat)
    requires op.Start? && !Accepts(l.file, op) && other.key != op.key && Lasts(l.file, op.key, cap, more + 1)
    ensures !Accepts(Perform(l, other, cap).file, op) && Lasts(Perform(l, other, cap).file, op.key, cap, more)
  {
    if Accepts(l.file, other) {
      var after := l.file + [NewRecord(l.file, other)];
      assert after[..|l.file|] == l.file;
      LatestInWindow(after, cap, op.key);
      IndexInWindow(after, cap, op.key);
    }
  }

  /** The keys of proposals that the ledger refuses outlive the records that the loop can still make,
      two for each action from `from` on. */
  ghost predicate Lasting(log: Log, rule: Rule, env: Env, itemId: string, cap: int, from: nat)
    requires from <= |rule.actions|
  {
    forall j :: from <= j < |rule.actions| && !OpenFor(log, rule, env, itemId, j) ==>
      Lasts(log.file, ProposalKey(rule.id, j, itemId, rule.actions[j]), cap, 2 * (|rule.actions| - from))
  }

  /** One operation of the loop under another key tells nothing new about the proposal at `j`. */
  lemma OneRecordLater(l: Log, other: Op, rule: Rule, env: Env, cap: int, j: nat, itemId: string, more: nat)
    requires j < |rule.actions| && rule.actions[j].Propose?
    requires var k := ProposalKey(rule.id, j, itemId, rule.actions[j]);
      other.key != k && (!OpenFor(l, rule, env, itemId, j) ==> Lasts(l.file, k, cap, more + 1))
    ensures var l', k := Perform(l, other, cap), ProposalKey(rule.id, j, itemId, rule.actions[j]);
      && (OpenFor(l', rule, env, itemId, j) <==> OpenFor(l, rule, env, itemId, j))
      && (!OpenFor(l, rule, env, itemId, j) ==> Lasts(l'.file, k, cap, more))
  {
    var op := StartProposal(rule.id, j, itemId, rule.actions[j], env.now);
    if OpenFor(l, rule, env, itemId, j) {
      OpenStaysOpen(l, other, op, cap);
    } else {
      ClosedStaysClosed(l, other, op, cap, more);
    }
  }

  /** A report follows the claim: two records, or none. */
  lemma ActWrites(l: Loop, rule: Rule, env: Env, registry: Registry, cap: int, i: nat, itemId: string)
    requires i < |rule.actions|
    ensures var after := ActStep(l, rule, env, registry, cap, i, itemId).log;
      || after == l.log
      || (rule.actions[i].Propose? && exists created ::
            after == Perform(Perform(l.log, StartProposal(rule.id, i, itemId, rule.actions[i], env.now), cap),
                             MarkProposal(rule.id, i, itemId, rule.actions[i], created, env.now), cap))
  {
  }

  lemma LastsLess(file: seq<Record>, k: Key, cap: int, more: nat, less: nat)
    requires Lasts(file, k, cap, more) && less <= more
    ensures Lasts(file, k, cap, less)
  {
  }

  lemma ActKeepsLater(l: Loop, rule: Rule, env: Env, registry: Registry, cap: int, i: nat, j: nat, itemId: string, more: nat)
    requires i < j < |rule.actions| && rule.actions[j].Propose?
    requires var k := ProposalKey(rule.id, j, itemId, rule.actions[j]);
      !OpenFor(l.log, rule, env, itemId, j) ==> Lasts(l.log.file, k, cap, more + 2)
    ensures var l', k := ActStep(l, rule, env, registry, cap, i, itemId).log, ProposalKey(rule.id, j, itemId, rule.actions[j]);
      && (OpenFor(l', rule, env, itemId, j) <==> OpenFor(l.log, rule, env, itemId, j))
      && (!OpenFor(l.log, rule, env, itemId, j) ==> Lasts(l'.file, k, cap, more))
  {
    ActWrites(l, rule, env, registry, cap, i, itemId);
    var l' := ActStep(l, rule, env, registry, cap, i, itemId).log;
    if l' == l.log {
      if !OpenFor(l.log, rule, env, itemId, j) {
        LastsLess(l.log.file, ProposalKey(rule.id, j, itemId, rule.actions[j]), cap, more + 2, more);
      }
    } else {
      var start := StartProposal(rule.id, i, itemId, rule.actions[i], env.now);
      var created :| l' == Perform(Perform(l.log, start, cap), MarkProposal(rule.id, i, itemId, rule.actions[i], created, env.now), cap);
      OneRecordLater(l.log, start, rule, env, cap, j, itemId, more + 1);
      OneRecordLater(Perform(l.log, start, cap), MarkProposal(rule.id, i, itemId, rule.actions[i], created, env.now),
                     rule, env, cap, j, itemId, more);
    }
  }

  /** An allowed proposal is created exactly when it names a registered write skill. */
  lemma AllowedIsCreated(act: RuleAct, env: Env, registry: Registry, i: nat)
    requires Unchanging(env) && act.Propose? && !env.safeMode && PolicyAllows(registry, env.policy, act)
    ensures Proposed(registry, env, act, i).Some? <==> Performable(registry, env, act, i)
  {
  }

  /** Nothing happens at this position: the action is blocked, or the ledger refuses its key. */
  predicate Idle(log: Log, rule: Rule, env: Env, registry: Registry, itemId: string, i: nat)
    requires i < |rule.actions|
  {
    Blocked(registry, env, rule.actions[i]) || !OpenFor(log, rule, env, itemId, i)
  }

  /** One action the loop reaches: idle ones are passed over, the others are carried out or raise. */
  lemma ActOutcome(l: Loop, rule: Rule, env: Env, registry: Registry, cap: int, i: nat, itemId: string)
    requires Unchanging(env) && i < |rule.actions| && !l.failed
    ensures var l', act := ActStep(l, rule, env, registry, cap, i, itemId), rule.actions[i];
      if |l.executed| >= rule.maxActions || Idle(l.log, rule, env, registry, itemId, i) then !l'.failed && l'.executed == l.executed
      else if Performable(registry, env, act, i) then !l'.failed && l'.executed == l.executed + [act]
      else l'.failed
  {
    var act := rule.actions[i];
    if act.Propose? && !env.safeMode && PolicyAllows(registry, env.policy, act) {
      AllowedIsCreated(act, env, registry, i);
    }
  }

  /** Those of the first `n` actions that are not idle. */
  function Acting(log: Log, rule: Rule, env: Env, registry: Registry, itemId: string, n: nat): seq<RuleAct>
    requires n <= |rule.actions|
  {
    if n == 0 then []
    else
      var before := Acting(log, rule, env, registry, itemId, n - 1);
      if Idle(log, rule, env, registry, itemId, n - 1) then before else before + [rule.actions[n - 1]]
  }

  lemma {:induction false} ActingWithoutHits(log: Log, rule: Rule, env: Env, registry: Registry, itemId: string, n: nat)
    requires n <= |rule.actions| && NoHits(log, rule, env, itemId, 0)
    ensures Acting(log, rule, env, registry, itemId, n) == Unblocked(registry, env, rule.actions[..n])
  {
    if n > 0 {
      ActingWithoutHits(log, rule, env, registry, itemId, n - 1);
      assert rule.actions[..n] == rule.actions[..n - 1] + [rule.actions[n - 1]];
      UnblockedOneMore(registry, env, rule.actions[..n - 1], rule.actions[n - 1]);
      assert OpenFor(log, rule, env, itemId, n - 1);
    }
  }

  lemma {:induction false} NobodyActs(log: Log, rule: Rule, env: Env, registry: Registry, itemId: string, n: nat)
    requires n <= |rule.actions|
    ensures Acting(log, rule, env, registry, itemId, n) == [] <==> forall i :: 0 <= i < n ==> Idle(log, rule, env, registry, itemId, i)
  {
    if n > 0 {
      NobodyActs(log, rule, env, registry, itemId, n - 1);
    }
  }

  /** The loop reaches action `i`, which is not idle, and the action raises. */
  predicate RaisesAt(log: Log, rule: Rule, env: Env, registry: Registry, itemId: string, i: nat)
    requires i < |rule.actions|
  {
    && !Idle(log, rule, env, registry, itemId, i) && !Performable(registry, env, rule.actions[i], i)
    && |Acting(log, rule, env, registry, itemId, i)| < rule.maxActions
  }

  /** One of the first `n` actions does. Told from the rule and what it finds, before the call. */
  ghost predicate WillRaise(log: Log, rule: Rule, env: Env, registry: Registry, itemId: string, n: nat)
    requires n <= |rule.actions|
  {
    exists i :: 0 <= i < n && RaisesAt(log, rule, env, registry, itemId, i)
  }

  lemma FailedStays(l: Loop, rule: Rule, env: Env, registry: Registry, cap: int, i: nat, itemId: string)
    requires i < |rule.actions| && l.failed
    ensures ActStep(l, rule, env, registry, cap, i, itemId) == l
  {
  }

  lemma FirstOfMore(u: seq<RuleAct>, act: RuleAct, m: int)
    ensures |First(u, m)| < m <==> |u| < m
    ensures First(u + [act], m) == if |First(u, m)| >= m then First(u, m) else First(u, m) + [act]
  {
  }

  /** From position `i` on the ledger answers every proposal as it would have at first, and will. */
  ghost predicate AnswersAs(now: Log, first: Log, rule: Rule, env: Env, itemId: string, cap: int, i: nat)
    requires i <= |rule.actions|
  {
    && Lasting(now, rule, env, itemId, cap, i)
    && forall j :: i <= j < |rule.actions| ==> (OpenFor(now, rule, env, itemId, j) <==> OpenFor(first, rule, env, itemId, j))
  }

  lemma AnswersOneMore(l: Loop, first: Log, rule: Rule, env: Env, registry: Registry, cap: int, i: nat, itemId: string)
    requires i < |rule.actions| && AnswersAs(l.log, first, rule, env, itemId, cap, i)
    ensures AnswersAs(ActStep(l, rule, env, registry, cap, i, itemId).log, first, rule, env, itemId, cap, i + 1)
  {
    var l' := ActStep(l, rule, env, registry, cap, i, itemId).log;
    forall j | i < j < |rule.actions| && rule.actions[j].Propose?
      ensures OpenFor(l', rule, env, itemId, j) <==> OpenFor(first, rule, env, itemId, j)
      ensures !OpenFor(l', rule, env, itemId, j) ==>
        Lasts(l'.file, ProposalKey(rule.id, j, itemId, rule.actions[j]), cap, 2 * (|rule.actions| - (i + 1)))
    {
      ActKeepsLater(l, rule, env, registry, cap, i, j, itemId, 2 * (|rule.actions| - (i + 1)));
    }
  }

  /** What is known of the loop before action `i`. */
  ghost predicate LoopAt(l: Loop, first: Log, rule: Rule, env: Env, registry: Registry, cap: int, itemId: string, i: nat)
    requires i <= |rule.actions|
  {
    && (l.failed <==> WillRaise(first, rule, env, registry, itemId, i))
    && (!l.failed ==> AnswersAs(l.log, first, rule, env, itemId, cap, i)
                      && l.executed == First(Acting(first, rule, env, registry, itemId, i), rule.maxActions))
  }

  /** Main result: under one policy and safe mode, and as long as the loop's own records evict no key
      that it will ask for, the loop fails exactly when an action that raises, and that neither a block
      nor the ledger holds back, comes before the cap is reached; otherwise it executes the first
      actions that are not held back, up to the cap. */
  lemma {:induction false} LoopOutcome(l: Loop, rule: Rule, env: Env, registry: Registry, cap: int, n: nat, itemId: string)
    requires n <= |rule.actions| && Unchanging(env) && Lasting(l.log, rule, env, itemId, cap, 0)
    requires l.executed == [] && !l.failed
    ensures LoopAt(RunActions(l, rule, env, registry, cap, n, itemId), l.log, rule, env, registry, cap, itemId, n)
  {
    if n > 0 {
      LoopOutcome(l, rule, env, registry, cap, n - 1, itemId);
      LoopOutcomeStep(RunActions(l, rule, env, registry, cap, n - 1, itemId), l.log, rule, env, registry, cap, n - 1, itemId);
    }
  }

  lemma LoopOutcomeStep(l: Loop, first: Log, rule: Rule, env: Env, registry: Registry, cap: int, i: nat, itemId: string)
    requires i < |rule.actions| && Unchanging(env) && LoopAt(l, first, rule, env, registry, cap, itemId, i)
    ensures LoopAt(ActStep(l, rule, env, registry, cap, i, itemId), first, rule, env, registry, cap, itemId, i + 1)
  {
    assert WillRaise(first, rule, env, registry, itemId, i + 1)
      <==> WillRaise(first, rule, env, registry, itemId, i) || RaisesAt(first, rule, env, registry, itemId, i);
    if l.failed {
      FailedStays(l, rule, env, registry, cap, i, itemId);
    } else {
      AnswersOneMore(l, first, rule, env, registry, cap, i, itemId);
      ActOutcome(l, rule, env, registry, cap, i, itemId);
      FirstOfMore(Acting(first, rule, env, registry, itemId, i), rule.actions[i], rule.maxActions);
    }
  }

  /** Without ledger hits nothing has to last. */
  lemma NoHitsLasts(log: Log, rule: Rule, env: Env, itemId: string, cap: int)
    requires NoHits(log, rule, env, itemId, 0)
    ensures Lasting(log, rule, env, itemId, cap, 0)
  {
    assert forall j :: 0 <= j < |rule.actions| ==> OpenFor(log, rule, env, itemId, j);
  }

  /** Where nothing raises and nothing is refused, the loop executes the first unblocked actions. */
  lemma SteadyLoop(l: Loop, rule: Rule, env: Env, registry: Registry, cap: int, itemId: string)
    requires Steady(rule, env, registry) && NoHits(l.log, rule, env, itemId, 0) && l.executed == [] && !l.failed
    ensures var l' := RunActions(l, rule, env, registry, cap, |rule.actions|, itemId);
      !l'.failed && l'.executed == First(Unblocked(registry, env, rule.actions), rule.maxActions)
  {
    NoHitsLasts(l.log, rule, env, itemId, cap);
    LoopOutcome(l, rule, env, registry, cap, |rule.actions|, itemId);
    ActingWithoutHits(l.log, rule, env, registry, itemId, |rule.actions|);
    assert rule.actions[..|rule.actions|] == rule.actions;
  }

  /** The plan is the first actions, up to the cap, each with its verdict. */
  lemma {:induction false} PlanIsFirstActions(rule: Rule, env: Env, registry: Registry, n: nat)
    requires n <= |rule.actions|
    ensures SameActions(registry, env, Plan(rule, env, registry, n), First(rule.actions[..n], rule.maxActions))
  {
    if n > 0 {
      PlanIsFirstActions(rule, env, registry, n - 1);
      FirstExtends(rule.actions, n, rule.maxActions);
      var before, acts := Plan(rule, env, registry, n - 1), First(rule.actions[..n - 1], rule.maxActions);
      SameActionsOneMore(registry, env, before, acts, rule.actions[n - 1]);
    }
  }

  /** The plan has as many entries as there are actions, and the same unblocked ones. */
  ghost predicate SameActions(registry: Registry, env: Env, planned: seq<Planned>, acts: seq<RuleAct>) {
    |planned| == |acts| && Effective(planned) == Unblocked(registry, env, acts)
  }

  lemma SameActionsOneMore(registry: Registry, env: Env, planned: seq<Planned>, acts: seq<RuleAct>, act: RuleAct)
    requires SameActions(registry, env, planned, acts)
    ensures SameActions(registry, env, planned + [Planned(act, Blocked(registry, env, act))], acts + [act])
  {
    EffectiveOneMore(planned, Planned(act, Blocked(registry, env, act)));
    UnblockedOneMore(registry, env, acts, act);
  }

  lemma FirstExtends(acts: seq<RuleAct>, n: nat, m: int)
    requires 0 < n <= |acts|
    ensures var before := First(acts[..n - 1], m);
      First(acts[..n], m) == if |before| < m then before + [acts[n - 1]] else before
  {
  }

  lemma EffectiveOneMore(planned: seq<Planned>, p: Planned)
    ensures Effective(planned + [p]) == if p.blocked then Effective(planned) else Effective(planned) + [p.act]
  {
    assert (planned + [p])[..|planned|] == planned;
  }

  lemma UnblockedOneMore(registry: Registry, env: Env, acts: seq<RuleAct>, act: RuleAct)
    ensures Unblocked(registry, env, acts + [act])
      == if Blocked(registry, env, act) then Unblocked(registry, env, acts) else Unblocked(registry, env, acts) + [act]
  {
    assert (acts + [act])[..|acts|] == acts;
  }

  lemma {:induction false} UnblockedConcat(registry: Registry, env: Env, a: seq<RuleAct>, b: seq<RuleAct>)
    ensures Unblocked(registry, env, a + b) == Unblocked(registry, env, a) + Unblocked(registry, env, b)
    ensures |Unblocked(registry, env, b)| <= |b|
  {
    if b == [] {
      assert a + b == a;
    } else {
      UnblockedConcat(registry, env, a, b[..|b| - 1]);
      assert (a + b)[..|a + b| - 1] == a + b[..|b| - 1];
    }
  }

  lemma {:induction false} UnblockedCounts(registry: Registry, env: Env, acts: seq<RuleAct>)
    ensures |Unblocked(registry, env, acts)| <= |acts|
    ensures |Unblocked(registry, env, acts)| == |acts| <==> forall i :: 0 <= i < |acts| ==> !Blocked(registry, env, acts[i])
    ensures Unblocked(registry, env, acts) == [] <==> forall i :: 0 <= i < |acts| ==> Blocked(registry, env, acts[i])
  {
    if acts != [] {
      UnblockedCounts(registry, env, acts[..|acts| - 1]);
      assert forall i :: 0 <= i < |acts| - 1 ==> acts[..|acts| - 1][i] == acts[i];
    }
  }

  /** No action that the cap lets the plan reach is blocked. */
  ghost predicate NothingBlockedWithinCap(rule: Rule, env: Env, registry: Registry) {
    forall i :: 0 <= i < |First(rule.actions, rule.maxActions)| ==> !Blocked(registry, env, rule.actions[i])
  }

  ghost predicate EverythingBlockedBeyondCap(rule: Rule, env: Env, registry: Registry) {
    forall i :: |First(rule.actions, rule.maxActions)| <= i < |rule.actions| ==> Blocked(registry, env, rule.actions[i])
  }

  lemma CappedPrefix(u: seq<RuleAct>, v: seq<RuleAct>, m: nat)
    requires |u| <= m
    ensures u <= First(u + v, m)
    ensures u == First(u + v, m) <==> |u| == m || v == []
  {
    if |u + v| <= m {
      assert First(u + v, m) == u + v;
    } else {
      assert |First(u + v, m)| == m;
    }
  }

  lemma SplitAtCap(rule: Rule, env: Env, registry: Registry, a: seq<RuleAct>, b: seq<RuleAct>)
    requires rule.actions == a + b && a == First(rule.actions, rule.maxActions)
    ensures var u, v := Unblocked(registry, env, a), Unblocked(registry, env, b);
      && Unblocked(registry, env, rule.actions) == u + v && |u| <= |a|
      && (NothingBlockedWithinCap(rule, env, registry) <==> |u| == |a|)
      && (EverythingBlockedBeyondCap(rule, env, registry) <==> v == [])
      && (b == [] ==> v == [])
  {
    UnblockedConcat(registry, env, a, b);
    UnblockedCounts(registry, env, a);
    UnblockedCounts(registry, env, b);
    WithinCap(rule, env, registry, a);
    BeyondCap(rule, env, registry, a, b);
  }

  lemma PrefixOfCapped(rule: Rule, env: Env, registry: Registry)
    ensures var planned := Unblocked(registry, env, First(rule.actions, rule.maxActions));
      var executed := First(Unblocked(registry, env, rule.actions), rule.maxActions);
      && planned <= executed
      && (planned == executed
          <==> NothingBlockedWithinCap(rule, env, registry) || EverythingBlockedBeyondCap(rule, env, registry))
  {
    var a := First(rule.actions, rule.maxActions);
    var b := rule.actions[|a|..];
    SplitAtCap(rule, env, registry, a, b);
    CappedPrefix(Unblocked(registry, env, a), Unblocked(registry, env, b), if rule.maxActions < 0 then 0 else rule.maxActions);
  }

  lemma WithinCap(rule: Rule, env: Env, registry: Registry, a: seq<RuleAct>)
    requires a == First(rule.actions, rule.maxActions)
    ensures NothingBlockedWithinCap(rule, env, registry) <==> forall i :: 0 <= i < |a| ==> !Blocked(registry, env, a[i])
  {
    assert forall i :: 0 <= i < |a| ==> a[i] == rule.actions[i];
  }

  lemma BeyondCap(rule: Rule, env: Env, registry: Registry, a: seq<RuleAct>, b: seq<RuleAct>)
    requires rule.actions == a + b && a == First(rule.actions, rule.maxActions)
    ensures EverythingBlockedBeyondCap(rule, env, registry) <==> forall i :: 0 <= i < |b| ==> Blocked(registry, env, b[i])
  {
    if EverythingBlockedBeyondCap(rule, env, registry) {
      forall i | 0 <= i < |b| ensures Blocked(registry, env, b[i]) {
        assert b[i] == rule.actions[|a| + i];
      }
    }
    if forall i :: 0 <= i < |b| ==> Blocked(registry, env, b[i]) {
      forall k | |a| <= k < |rule.actions| ensures Blocked(registry, env, rule.actions[k]) {
        assert rule.actions[k] == b[k - |a|];
      }
    }
  }

  /** Main result: in the steady setting, with no ledger hit, the unblocked planned actions are a
      prefix of what the evaluation executes. The two are equal exactly when nothing within the cap is
      blocked, or everything beyond it is. */
  lemma PreviewIsPrefixOfEvaluation(l: Loop, m: Memory, rule: Rule, env: Env, registry: Registry, cap: int, trigger: Trigger)
    requires !CooldownActive(rule, m, env.now) && l.executed == [] && !l.failed
    requires Steady(rule, env, registry)
    requires var matches := Matching(rule, Candidates(m, trigger));
      matches != [] && NoHits(l.log, rule, env, matches[0].id, 0)
    ensures var planned := Effective(Preview(m, rule, env, registry, trigger));
      var executed := EvaluateOnce(l, m, rule, env, registry, cap, trigger).loop.executed;
      && planned <= executed
      && (planned == executed
          <==> NothingBlockedWithinCap(rule, env, registry) || EverythingBlockedBeyondCap(rule, env, registry))
  {
    var matches := Matching(rule, Candidates(m, trigger));
    assert rule.actions[..|rule.actions|] == rule.actions;
    PlanIsFirstActions(rule, env, registry, |rule.actions|);
    SteadyLoop(l, rule, env, registry, cap, matches[0].id);
    PrefixOfCapped(rule, env, registry);
  }

  // ---------------------------------------------------------------- cap and cooldown

  lemma {:induction false} ActionsAreCapped(l: Loop, rule: Rule, env: Env, registry: Registry, cap: int, n: nat, itemId: string)
    requires n <= |rule.actions| && l.executed == []
    ensures |RunActions(l, rule, env, registry, cap, n, itemId).executed| <= (if rule.maxActions < 0 then 0 else rule.maxActions)
  {
    if n > 0 {
      ActionsAreCapped(l, rule, env, registry, cap, n - 1, itemId);
    }
  }

  // ---------------------------------------------------------------- runs of evaluations

  /** One evaluation of a run: its surroundings, its trigger and the files it starts from. */
  datatype Tick = Tick(env: Env, trigger: Trigger, files: Loop)

  type Schedule = nat -> Tick

  /** What the `i`-th evaluation makes of the memory it finds. */
  type Evaluation = (nat, Memory) -> Evaluated

  function At(m: Memory, rule: Rule, registry: Registry, cap: int, t: Tick): Evaluated {
    EvaluateOnce(t.files.(executed := [], failed := false), m, rule, t.env, registry, cap, t.trigger)
  }

  function ByEngine(rule: Rule, registry: Registry, cap: int, ticks: Schedule): Evaluation {
    (i: nat, m: Memory) => At(m, rule, registry, cap, ticks(i))
  }

  /** The rule's memory after the first `n` evaluations. */
  function MemoryAfter(m: Memory, eval: Evaluation, n: nat): Memory {
    if n == 0 then m else eval(n - 1, MemoryAfter(m, eval, n - 1)).memory
  }

  /** Evaluation `i` ended well and executed an action. */
  predicate Fired(m: Memory, eval: Evaluation, i: nat) {
    var e := eval(i, MemoryAfter(m, eval, i));
    e.result.ok && e.loop.executed != []
  }

  ghost predicate Nondecreasing(ticks: Schedule) {
    forall i, j :: 0 <= i <= j ==> ticks(i).env.now <= ticks(j).env.now
  }

  predicate CoolUntil(m: Memory, time: int) {
    m.cooldownUntil.Some? && m.cooldownUntil.value >= time
  }

  /** What one evaluation does to the cooldown: firing arms it, and nothing else moves it; while it
      runs, nothing is executed. */
  predicate Cools(m: Memory, e: Evaluated, now: int, cooldown: int) {
    && e.memory.cooldownUntil == (if e.result.ok && e.loop.executed != [] then Some(now + cooldown) else m.cooldownUntil)
    && (m.cooldownUntil.Some? && m.cooldownUntil.value > now ==> e.loop.executed == [])
  }

  lemma EvaluationCools(m: Memory, rule: Rule, registry: Registry, cap: int, t: Tick)
    requires rule.cooldown > 0
    ensures Cools(m, At(m, rule, registry, cap, t), t.env.now, rule.cooldown)
  {
  }

  /** The same for every evaluation of a run. */
  ghost predicate Obeys(eval: Evaluation, times: nat -> int, cooldown: int) {
    forall i: nat, m: Memory :: Cools(m, eval(i, m), times(i), cooldown)
  }

  ghost predicate InOrder(times: nat -> int) {
    forall i, j :: 0 <= i <= j ==> times(i) <= times(j)
  }

  lemma {:induction false} CooldownHolds(m: Memory, eval: Evaluation, times: nat -> int, cooldown: int, i: nat, j: nat)
    requires cooldown > 0 && i < j && InOrder(times) && Obeys(eval, times, cooldown) && Fired(m, eval, i)
    ensures CoolUntil(MemoryAfter(m, eval, j), times(i) + cooldown)
  {
    var before := MemoryAfter(m, eval, j - 1);
    assert Cools(before, eval(j - 1, before), times(j - 1), cooldown);
    if i + 1 < j {
      CooldownHolds(m, eval, times, cooldown, i, j - 1);
    }
  }

  /** Main result: two evaluations that fire are at least a cooldown apart. */
  lemma FiringsAreACooldownApart(m: Memory, eval: Evaluation, times: nat -> int, cooldown: int, i: nat, j: nat)
    requires cooldown > 0 && i < j && InOrder(times) && Obeys(eval, times, cooldown)
    requires Fired(m, eval, i) && Fired(m, eval, j)
    ensures times(j) - times(i) >= cooldown
  {
    CooldownHolds(m, eval, times, cooldown, i, j);
    var before := MemoryAfter(m, eval, j);
    assert Cools(before, eval(j, before), times(j), cooldown);
  }

  /** Which of the first `n` evaluations fired. */
  function Firings(m: Memory, eval: Evaluation, n: nat): (r: seq<bool>)
    ensures |r| == n
  {
    seq(n, i requires 0 <= i < n => Fired(m, eval, i))
  }

  lemma FiringsAreFew(m: Memory, eval: Evaluation, times: nat -> int, cooldown: int, i: nat, n: nat, L: nat)
    requires cooldown > 0 && i < n && InOrder(times) && Obeys(eval, times, cooldown) && times(n - 1) - times(i) <= L
    ensures HowMany(Firings(m, eval, n), i, n) <= L / cooldown + 1
  {
    var fired, at := Firings(m, eval, n), seq(n, k requires 0 <= k < n => times(k));
    forall p, q | 0 <= p < q < n && fired[p] && fired[q] ensures at[q] - at[p] >= cooldown {
      FiringsAreACooldownApart(m, eval, times, cooldown, p, q);
    }
    SpacedEventsAreFew(at, fired, cooldown, i, n, L);
  }

  function TimesOf(ticks: Schedule): nat -> int {
    (i: nat) => ticks(i).env.now
  }

  lemma EngineObeys(rule: Rule, registry: Registry, cap: int, ticks: Schedule)
    requires rule.cooldown > 0
    ensures Obeys(ByEngine(rule, registry, cap, ticks), TimesOf(ticks), rule.cooldown)
  {
    forall i: nat, m: Memory
      ensures Cools(m, ByEngine(rule, registry, cap, ticks)(i, m), TimesOf(ticks)(i), rule.cooldown)
    {
      EvaluationCools(m, rule, registry, cap, ticks(i));
    }
  }

  /** Main result: within an interval of length L a rule fires at most floor(L / cooldown) + 1 times. */
  lemma CooldownBoundsRate(m: Memory, rule: Rule, registry: Registry, cap: int, ticks: Schedule, i: nat, n: nat, L: nat)
    requires rule.cooldown > 0 && i < n && Nondecreasing(ticks)
    requires ticks(n - 1).env.now - ticks(i).env.now <= L
    ensures HowMany(Firings(m, ByEngine(rule, registry, cap, ticks), n), i, n) <= L / rule.cooldown + 1
  {
    EngineObeys(rule, registry, cap, ticks);
    assert InOrder(TimesOf(ticks));
    FiringsAreFew(m, ByEngine(rule, registry, cap, ticks), TimesOf(ticks), rule.cooldown, i, n, L);
  }

  // ---------------------------------------------------------------- cursors along a run

  /** What a completed evaluation looked at; nothing under a cooldown, a degraded service or a failure. */
  function Seen(rule: Rule, m: Memory, t: Tick, e: Evaluated): Option<seq<Item>> {
    if !CooldownActive(rule, m, t.env.now) && e.result.ok && t.trigger.Fetched? then Some(t.trigger.items) else None
  }

  /** A completed evaluation moves the cursors by exactly its new items; any other leaves them alone. */
  lemma EvaluationMovesCursors(m: Memory, rule: Rule, registry: Registry, cap: int, t: Tick)
    ensures var e := At(m, rule, registry, cap, t);
      e.memory.cursor == StepCursor(m.cursor, Seen(rule, m, t, e))
  {
  }

  ghost predicate Tracks(eval: Evaluation, rule: Rule, ticks: Schedule) {
    forall i: nat, m: Memory :: eval(i, m).memory.cursor == StepCursor(m.cursor, Seen(rule, m, ticks(i), eval(i, m)))
  }

  /** What the completed ones among the first `n` evaluations looked at. */
  function LookedAt(m: Memory, eval: Evaluation, rule: Rule, ticks: Schedule, n: nat): seq<seq<Item>> {
    if n == 0 then []
    else
      var before := MemoryAfter(m, eval, n - 1);
      Extended(LookedAt(m, eval, rule, ticks, n - 1), Seen(rule, before, ticks(n - 1), eval(n - 1, before)))
  }

  lemma {:induction false} CursorsFollow(m: Memory, eval: Evaluation, rule: Rule, ticks: Schedule, n: nat)
    requires Tracks(eval, rule, ticks)
    ensures var looked := LookedAt(m, eval, rule, ticks, n);
      MemoryAfter(m, eval, n).cursor == RuleCursors.After(m.cursor, looked, |looked|)
  {
    if n > 0 {
      CursorsFollow(m, eval, rule, ticks, n - 1);
      var before := MemoryAfter(m, eval, n - 1);
      AfterExtended(m.cursor, LookedAt(m, eval, rule, ticks, n - 1), Seen(rule, before, ticks(n - 1), eval(n - 1, before)));
    }
  }

  /** Main result: along any run of evaluations, with cooldowns, degraded services and failures between
      them, the rule's cursors are those of the completed evaluations alone. */
  lemma CursorsFollowCompleted(m: Memory, rule: Rule, registry: Registry, cap: int, ticks: Schedule, n: nat)
    ensures var eval := ByEngine(rule, registry, cap, ticks);
      var looked := LookedAt(m, eval, rule, ticks, n);
      MemoryAfter(m, eval, n).cursor == RuleCursors.After(m.cursor, looked, |looked|)
  {
    EngineTracks(rule, registry, cap, ticks);
    CursorsFollow(m, ByEngine(rule, registry, cap, ticks), rule, ticks, n);
  }

  // ---------------------------------------------------------------- no re-firing, with a save after each evaluation

  /** What the rule store makes of a memory when it writes and reads it. */
  function Saved(m: Memory): Memory {
    m.(cursor := Migrate(m.cursor))
  }

  function BySavingEngine(rule: Rule, registry: Registry, cap: int, ticks: Schedule): Evaluation {
    (i: nat, m: Memory) =>
      var e := At(m, rule, registry, cap, ticks(i));
      Evaluated(e.loop, Saved(e.memory), e.result)
  }

  lemma EngineTracks(rule: Rule, registry: Registry, cap: int, ticks: Schedule)
    ensures Tracks(ByEngine(rule, registry, cap, ticks), rule, ticks)
  {
    var eval := ByEngine(rule, registry, cap, ticks);
    forall i: nat, m: Memory ensures eval(i, m).memory.cursor == StepCursor(m.cursor, Seen(rule, m, ticks(i), eval(i, m))) {
      EvaluationMovesCursors(m, rule, registry, cap, ticks(i));
    }
  }

  lemma SavedOnce(m: Memory, rule: Rule, registry: Registry, cap: int, t: Tick)
    requires Saved(m) == m
    ensures Saved(At(m, rule, registry, cap, t).memory) == At(m, rule, registry, cap, t).memory
  {
    EvaluationMovesCursors(m, rule, registry, cap, t);
    MigratedStays(m.cursor, Seen(rule, m, t, At(m, rule, registry, cap, t)));
  }

  /** Once a rule has been through the store, saving it after every evaluation changes nothing. */
  lemma {:induction false} SavingIsInvisible(m: Memory, rule: Rule, registry: Registry, cap: int, ticks: Schedule, n: nat)
    requires Saved(m) == m
    ensures MemoryAfter(m, BySavingEngine(rule, registry, cap, ticks), n) == MemoryAfter(m, ByEngine(rule, registry, cap, ticks), n)
    ensures Saved(MemoryAfter(m, ByEngine(rule, registry, cap, ticks), n)) == MemoryAfter(m, ByEngine(rule, registry, cap, ticks), n)
  {
    if n > 0 {
      SavingIsInvisible(m, rule, registry, cap, ticks, n - 1);
      SavedOnce(MemoryAfter(m, ByEngine(rule, registry, cap, ticks), n - 1), rule, registry, cap, ticks(n - 1));
    }
  }

  lemma StepNeverGoesBack(c: Cursor, trigger: Option<seq<Item>>, t: int)
    requires AtMost(t, c.last)
    ensures AtMost(t, StepCursor(c, trigger).last)
  {
    if trigger.Some? {
      LatestBounds(c.last, FilterNew(c, trigger.value));
    }
  }

  lemma {:induction false} MemoryNeverGoesBack(m: Memory, eval: Evaluation, rule: Rule, ticks: Schedule, i: nat, n: nat, t: int)
    requires Tracks(eval, rule, ticks) && i <= n && AtMost(t, MemoryAfter(m, eval, i).cursor.last)
    ensures AtMost(t, MemoryAfter(m, eval, n).cursor.last)
  {
    if i < n {
      MemoryNeverGoesBack(m, eval, rule, ticks, i, n - 1, t);
      var before := MemoryAfter(m, eval, n - 1);
      StepNeverGoesBack(before.cursor, Seen(rule, before, ticks(n - 1), eval(n - 1, before)), t);
    }
  }

  /** Evaluation `i` completed, and `item` was among its new items. */
  predicate Processes(m: Memory, eval: Evaluation, rule: Rule, ticks: Schedule, i: nat, item: Item) {
    var before := MemoryAfter(m, eval, i);
    var seen := Seen(rule, before, ticks(i), eval(i, before));
    seen.Some? && item in FilterNew(before.cursor, seen.value)
  }

  lemma ProcessedNeverRefires(m: Memory, eval: Evaluation, rule: Rule, ticks: Schedule, i: nat, n: nat, item: Item, again: Item)
    requires Tracks(eval, rule, ticks) && i < n && Processes(m, eval, rule, ticks, i, item)
    requires item.ts.Some? && again.ts.Some? && again.ts.value <= item.ts.value
    ensures !IsNew(MemoryAfter(m, eval, n).cursor, again)
  {
    var before := MemoryAfter(m, eval, i);
    ProcessedMovesCursor(before.cursor, Seen(rule, before, ticks(i), eval(i, before)).value, item);
    MemoryNeverGoesBack(m, eval, rule, ticks, i + 1, n, item.ts.value);
    CursorBlocks(MemoryAfter(m, eval, n).cursor, item.ts.value, again);
  }

  /** Main result, timestamped items: along any run of the engine with a save after every evaluation,
      once a completed evaluation has processed an item, nothing with the same or an earlier timestamp
      is ever a candidate again. */
  lemma EngineNeverRefires(m: Memory, rule: Rule, registry: Registry, cap: int, ticks: Schedule, i: nat, n: nat, item: Item, again: Item)
    requires Saved(m) == m && i < n && Processes(m, ByEngine(rule, registry, cap, ticks), rule, ticks, i, item)
    requires item.ts.Some? && again.ts.Some? && again.ts.value <= item.ts.value
    ensures !IsNew(MemoryAfter(m, BySavingEngine(rule, registry, cap, ticks), n).cursor, again)
  {
    EngineTracks(rule, registry, cap, ticks);
    ProcessedNeverRefires(m, ByEngine(rule, registry, cap, ticks), rule, ticks, i, n, item, again);
    SavingIsInvisible(m, rule, registry, cap, ticks, n);
  }

  /** Every id that the completed ones among the first `n` evaluations processed, in order. */
  function ProcessedIds(m: Memory, eval: Evaluation, rule: Rule, ticks: Schedule, n: nat): seq<string> {
    var looked := LookedAt(m, eval, rule, ticks, n);
    Ids(Processed(m.cursor, looked, |looked|))
  }

  /** Main result, untimestamped items: along such a run from an empty list, an id is a candidate again
      exactly when it was never processed, or at least the limit of distinct other ids were since. */
  lemma EngineRefiresIffForgotten(m: Memory, seenMax: nat, rule: Rule, registry: Registry, cap: int, ticks: Schedule, n: nat, item: Item)
    requires m.cursor == Cursor([], seenMax, None) && seenMax > 0 && item.ts.None?
    ensures var log := ProcessedIds(m, ByEngine(rule, registry, cap, ticks), rule, ticks, n);
      IsNew(MemoryAfter(m, BySavingEngine(rule, registry, cap, ticks), n).cursor, item)
      <==> item.id !in log || |set y | y in Since(log, item.id)| >= seenMax
  {
    var looked := LookedAt(m, ByEngine(rule, registry, cap, ticks), rule, ticks, n);
    CursorsFollowCompleted(m, rule, registry, cap, ticks, n);
    SavingIsInvisible(m, rule, registry, cap, ticks, n);
    UntimestampedRefiresIffForgotten(seenMax, looked, |looked|, item);
  }

  // ---------------------------------------------------------------- when the cooldown starts, and when not

  /** The items that an evaluation of this memory would act on. */
  function MatchesOf(rule: Rule, m: Memory, trigger: Trigger): seq<Item> {
    Matching(rule, Candidates(m, trigger))
  }

  /** An evaluation that reaches its action loop, whose own records evict no key that it asks for. */
  ghost predicate ReachesLoop(l: Loop, m: Memory, rule: Rule, env: Env, cap: int, trigger: Trigger) {
    && !CooldownActive(rule, m, env.now) && trigger.Fetched? && MatchesOf(rule, m, trigger) != []
    && Lasting(l.log, rule, env, MatchesOf(rule, m, trigger)[0].id, cap, 0)
    && l.executed == [] && !l.failed
  }

  /** What the evaluation makes of its loop's outcome. */
  lemma OutcomeOfLoop(l: Loop, m: Memory, rule: Rule, env: Env, registry: Registry, cap: int, trigger: Trigger, l': Loop)
    requires rule.cooldown > 0 && ReachesLoop(l, m, rule, env, cap, trigger)
    requires l' == RunActions(l, rule, env, registry, cap, |rule.actions|, MatchesOf(rule, m, trigger)[0].id)
    ensures var e := EvaluateOnce(l, m, rule, env, registry, cap, trigger);
      && (e.result.ok <==> !l'.failed)
      && e.memory.cooldownUntil == (if !l'.failed && l'.executed != [] then Some(env.now + rule.cooldown) else m.cooldownUntil)
      && (l'.failed ==> e.memory.cursor == m.cursor)
  {
  }

  /** Some action would be carried out. */
  ghost predicate ActsAtAll(log: Log, rule: Rule, env: Env, registry: Registry, itemId: string) {
    rule.maxActions > 0 && exists i :: 0 <= i < |rule.actions| && !Idle(log, rule, env, registry, itemId, i)
  }

  /** Main result: executing an action does not by itself start the cooldown. An evaluation that
      reaches its loop ends well exactly when no action that raises, and that neither a block nor the
      ledger holds back, comes before the cap; and it starts the cooldown exactly when, besides, the cap
      admits an action and not every action is held back. All of it can be read off the rule, its
      surroundings and the ledger before the call. */
  lemma CooldownStartsExactlyWhen(l: Loop, m: Memory, rule: Rule, env: Env, registry: Registry, cap: int, trigger: Trigger)
    requires rule.cooldown > 0 && Unchanging(env) && ReachesLoop(l, m, rule, env, cap, trigger)
    ensures var e, itemId := EvaluateOnce(l, m, rule, env, registry, cap, trigger), MatchesOf(rule, m, trigger)[0].id;
      var raises := WillRaise(l.log, rule, env, registry, itemId, |rule.actions|);
      && (e.result.ok <==> !raises)
      && (e.memory.cooldownUntil == Some(env.now + rule.cooldown) <==> !raises && ActsAtAll(l.log, rule, env, registry, itemId))
      && (raises ==> e.memory.cooldownUntil == m.cooldownUntil && e.memory.cursor == m.cursor)
  {
    var itemId := MatchesOf(rule, m, trigger)[0].id;
    LoopOutcome(l, rule, env, registry, cap, |rule.actions|, itemId);
    OutcomeOfLoop(l, m, rule, env, registry, cap, trigger, RunActions(l, rule, env, registry, cap, |rule.actions|, itemId));
    NobodyActs(l.log, rule, env, registry, itemId, |rule.actions|);
  }

  // ---------------------------------------------------------------- a rule that never cools down

  /** A rule that notifies and then proposes a skill that cannot be proposed. */
  predicate Stuttering(rule: Rule) {
    |rule.actions| == 2 && rule.actions[0].Notify? && rule.actions[1].Propose? && rule.maxActions >= 2 && rule.cooldown > 0
  }

  /** Surroundings in which its notification is sent and its proposal is allowed, and raises. */
  predicate Provoking(rule: Rule, env: Env, registry: Registry)
    requires Stuttering(rule)
  {
    && Unchanging(env) && !env.safeMode && 0 !in env.unsendable
    && PolicyAllows(registry, env.policy, rule.actions[1]) && !Performable(registry, env, rule.actions[1], 1)
  }

  function GhostKey(rule: Rule, itemId: string): Key
    requires Stuttering(rule)
  {
    ProposalKey(rule.id, 1, itemId, rule.actions[1])
  }

  /** The claim and the failed report leave the key open. */
  lemma FailedReportReopens(log: Log, rule: Rule, env: Env, cap: int, itemId: string)
    requires Stuttering(rule)
    ensures var op := MarkProposal(rule.id, 1, itemId, rule.actions[1], false, env.now);
      CanStart(Perform(log, op, cap).file, GhostKey(rule, itemId))
  {
    MarkIsLatest(log, MarkProposal(rule.id, 1, itemId, rule.actions[1], false, env.now), cap);
  }

  lemma StutterLoop(l: Loop, rule: Rule, env: Env, registry: Registry, cap: int, itemId: string)
    requires Stuttering(rule) && Provoking(rule, env, registry) && CanStart(l.log.file, GhostKey(rule, itemId))
    requires l.executed == [] && !l.failed
    ensures var l' := RunActions(l, rule, env, registry, cap, 2, itemId);
      && l'.failed && l'.sent == l.sent + [rule.actions[0].title] && CanStart(l'.log.file, GhostKey(rule, itemId))
  {
    var l1 := RunActions(l, rule, env, registry, cap, 1, itemId);
    assert RunActions(l, rule, env, registry, cap, 0, itemId) == l;
    assert l1 == l.(sent := l.sent + [rule.actions[0].title], executed := [rule.actions[0]]);
    FailedReportReopens(Perform(l.log, StartProposal(rule.id, 1, itemId, rule.actions[1], env.now), cap), rule, env, cap, itemId);
    AllowedIsCreated(rule.actions[1], env, registry, 1);
  }

  /** Nothing stands in the way of the rule's next evaluation: its item is new and its key open. */
  ghost predicate Poised(l: Loop, m: Memory, rule: Rule, items: seq<Item>, itemId: string)
    requires Stuttering(rule)
  {
    && MatchesOf(rule, m, Fetched(items)) != [] && MatchesOf(rule, m, Fetched(items))[0].id == itemId
    && CanStart(l.log.file, GhostKey(rule, itemId)) && l.executed == [] && !l.failed
  }

  /** One evaluation: the notification goes out, and nothing that would prevent the next one changes. */
  lemma StutterOnce(l: Loop, m: Memory, rule: Rule, env: Env, registry: Registry, cap: int, items: seq<Item>, itemId: string)
    requires Stuttering(rule) && Provoking(rule, env, registry) && !CooldownActive(rule, m, env.now)
    requires Poised(l, m, rule, items, itemId)
    ensures var e := EvaluateOnce(l, m, rule, env, registry, cap, Fetched(items));
      && !e.result.ok && e.loop.sent == l.sent + [rule.actions[0].title]
      && e.memory.cooldownUntil == m.cooldownUntil && e.memory.cursor == m.cursor
      && CanStart(e.loop.log.file, GhostKey(rule, itemId))
  {
    StutterLoop(l, rule, env, registry, cap, itemId);
  }

  lemma SameCursorSameMatches(rule: Rule, m: Memory, m': Memory, trigger: Trigger)
    requires m.cursor == m'.cursor
    ensures MatchesOf(rule, m, trigger) == MatchesOf(rule, m', trigger)
  {
  }

  /** One evaluation with these items in the feed, and the files made ready for the next. */
  type Round = (nat, Loop, Memory) -> (Loop, Memory)

  function Evaluating(rule: Rule, envs: nat -> Env, registry: Registry, cap: int, items: seq<Item>): Round {
    (i: nat, l: Loop, m: Memory) =>
      var e := EvaluateOnce(l, m, rule, envs(i), registry, cap, Fetched(items));
      (e.loop.(executed := [], failed := false), e.memory)
  }

  /** The files and the memory after `n` rounds. */
  function Repeatedly(l: Loop, m: Memory, round: Round, n: nat): (Loop, Memory) {
    if n == 0 then (l, m)
    else
      var (l', m') := Repeatedly(l, m, round, n - 1);
      round(n - 1, l', m')
  }

  function Copies(title: string, n: nat): seq<string> {
    if n == 0 then [] else Copies(title, n - 1) + [title]
  }

  /** After `n` evaluations the notification has gone out `n` times, and the rule is where it was. */
  ghost predicate Notified(l: Loop, m: Memory, l': Loop, m': Memory, rule: Rule, items: seq<Item>, itemId: string, n: nat)
    requires Stuttering(rule)
  {
    && l'.sent == l.sent + Copies(rule.actions[0].title, n)
    && m'.cooldownUntil == m.cooldownUntil && m'.cursor == m.cursor && Poised(l', m', rule, items, itemId)
  }

  lemma NotifiedOnceMore(l: Loop, m: Memory, l': Loop, m': Memory, rule: Rule, env: Env, registry: Registry, cap: int,
                         items: seq<Item>, itemId: string, n: nat)
    requires Stuttering(rule) && Provoking(rule, env, registry) && !CooldownActive(rule, m, env.now)
    requires Notified(l, m, l', m', rule, items, itemId, n)
    ensures var e := EvaluateOnce(l', m', rule, env, registry, cap, Fetched(items));
      Notified(l, m, e.loop.(executed := [], failed := false), e.memory, rule, items, itemId, n + 1)
  {
    StutterOnce(l', m', rule, env, registry, cap, items, itemId);
    SameCursorSameMatches(rule, m', EvaluateOnce(l', m', rule, env, registry, cap, Fetched(items)).memory, Fetched(items));
  }

  /** Main result: such a rule notifies at each of any number of evaluations, whatever its cooldown,
      for as long as the proposal keeps raising and its item stays in the feed. */
  lemma {:induction false} FailingProposalDefeatsCooldown(l: Loop, m: Memory, rule: Rule, envs: nat -> Env, registry: Registry,
                                                          cap: int, items: seq<Item>, itemId: string, n: nat)
    requires Stuttering(rule) && (forall i: nat :: Provoking(rule, envs(i), registry) && !CooldownActive(rule, m, envs(i).now))
    requires Poised(l, m, rule, items, itemId)
    ensures var (l', m') := Repeatedly(l, m, Evaluating(rule, envs, registry, cap, items), n);
      Notified(l, m, l', m', rule, items, itemId, n)
  {
    if n > 0 {
      FailingProposalDefeatsCooldown(l, m, rule, envs, registry, cap, items, itemId, n - 1);
      var (l', m') := Repeatedly(l, m, Evaluating(rule, envs, registry, cap, items), n - 1);
      NotifiedOnceMore(l, m, l', m', rule, envs(n - 1), registry, cap, items, itemId, n - 1);
    }
  }
}
