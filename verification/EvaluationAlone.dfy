/** A rule evaluation that nobody interrupts, step by step in the interleaved system, acts on the files
    exactly as the engine's own action loop does. */
module EvaluationAlone {
  import opened Sequences
  import opened Ledger
  import opened Policy
  import opened Approvals
  import opened Interleaving
  import Atomicity
  import Rules = RuleEngine

  /** What the process is handed at each step: the notifier's answer, or the fresh id that belongs to
      the action it is at. */
  function ChoiceFor(env: Rules.Env, pc: Proc): Choice {
    Choice(if pc.EvalAction? && pc.e.index in env.unsendable then RunRaises("") else RunReturns(""),
           if pc.EvalCreate? then Rules.FreshId(env, pc.e.index) else "", env.ttl)
  }

  /** Up to `fuel` consecutive steps of one evaluation. */
  function Alone(w: World, pc: Proc, env: Rules.Env, registry: Registry, cap: int, fuel: nat): World
    decreases fuel
  {
    if fuel == 0 || !InEval(pc) then w
    else
      var m := EvalStep(w, pc, ChoiceFor(env, pc), registry, cap);
      Alone(m.world, m.proc, env, registry, cap, fuel - 1)
  }

  /** The world holds the files of the loop, and the settings of the environment. */
  predicate Tracks(w: World, l: Rules.Loop, env: Rules.Env, cap: int) {
    && w == World(env.now, env.safeMode, env.laterPolicy, w.autoclean, l.records, l.log.history)
    && l.log.file == Window(w.ledger, cap) && env.laterSafeMode == env.safeMode
  }

  /** The process about to look at action `i`, the loop having got as far as `l`. */
  function Looking(rule: Rules.Rule, itemId: string, env: Rules.Env, l: Rules.Loop, i: nat): Evaluation {
    Evaluation(rule.id, itemId, env.policy, rule.actions, rule.maxActions, i, |l.executed|)
  }

  /** Where the process is once the loop has got to `l`, before action `i`; an exception ended it. */
  function PlaceAt(rule: Rules.Rule, itemId: string, env: Rules.Env, l: Rules.Loop, i: nat): Proc {
    if l.failed then Ready else EvalAction(Looking(rule, itemId, env, l, i))
  }

  lemma AppendTracks(w: World, l: Rules.Loop, env: Rules.Env, cap: int, op: Op)
    requires Tracks(w, l, env, cap) && Accepts(l.log.file, op)
    ensures Tracks(Append(w, op, cap), l.(log := Perform(l.log, op, cap)), env, cap)
  {
    Atomicity.WindowOfAppend(w.ledger, NewRecord(Window(w.ledger, cap), op), cap);
  }

  /** One step of the process, when it is known where it leads. */
  lemma StepsTo(w: World, pc: Proc, m: Moved, env: Rules.Env, registry: Registry, cap: int, fuel: nat)
    requires fuel >= 1 && InEval(pc) && m == EvalStep(w, pc, ChoiceFor(env, pc), registry, cap)
    ensures Alone(w, pc, env, registry, cap, fuel) == Alone(m.world, m.proc, env, registry, cap, fuel - 1)
  {
  }

  /** The loop once the proposal's outcome is reported. */
  function Reported(l: Rules.Loop, rule: Rules.Rule, env: Rules.Env, cap: int, i: nat, itemId: string, created: bool, escapes: bool): Rules.Loop
    requires i < |rule.actions| && rule.actions[i].Propose?
  {
    var act := rule.actions[i];
    l.(log := Perform(l.log, Rules.MarkProposal(rule.id, i, itemId, act, created, env.now), cap),
       executed := if created then l.executed + [act] else l.executed, failed := escapes)
  }

  /** What is granted is reported in one of three ways. */
  lemma GrantedIsReported(l: Rules.Loop, rule: Rules.Rule, env: Rules.Env, registry: Registry, cap: int, i: nat, itemId: string)
    requires !l.failed && i < |rule.actions| && rule.actions[i].Propose?
    ensures var made := Rules.Proposed(registry, env, rule.actions[i], i);
      Rules.Granted(l, rule, env, registry, cap, i, itemId, rule.actions[i])
      == if !Rules.PolicyAllows(registry, env.policy, rule.actions[i]) then Reported(l, rule, env, cap, i, itemId, false, false)
         else if made.None? then Reported(l, rule, env, cap, i, itemId, false, true)
         else Reported(l.(records := Upsert(l.records, made.value)), rule, env, cap, i, itemId, true, false)
  {
  }

  lemma ReportsAlone(w: World, l: Rules.Loop, rule: Rules.Rule, env: Rules.Env, registry: Registry, cap: int, i: nat, itemId: string,
                     created: bool, escapes: bool, fuel: nat) returns (w': World)
    requires Tracks(w, l, env, cap) && i < |rule.actions| && rule.actions[i].Propose? && fuel >= 1 && !(created && escapes)
    ensures var l' := Reported(l, rule, env, cap, i, itemId, created, escapes);
      && Tracks(w', l', env, cap)
      && Alone(w, EvalMark(Looking(rule, itemId, env, l, i), created, escapes), env, registry, cap, fuel)
         == Alone(w', PlaceAt(rule, itemId, env, l', i + 1), env, registry, cap, fuel - 1)
  {
    var e := Looking(rule, itemId, env, l, i);
    var op := Rules.MarkProposal(rule.id, i, itemId, rule.actions[i], created, env.now);
    w' := Append(w, op, cap);
    ReportTracks(w, l, rule, env, cap, i, itemId, created, escapes, op);
    var m := ReportStep(w, e, created, escapes, op, env, registry, cap);
    StepsTo(w, EvalMark(e, created, escapes), m, env, registry, cap, fuel);
  }

  lemma ReportTracks(w: World, l: Rules.Loop, rule: Rules.Rule, env: Rules.Env, cap: int, i: nat, itemId: string,
                     created: bool, escapes: bool, op: Op)
    requires Tracks(w, l, env, cap) && i < |rule.actions| && rule.actions[i].Propose?
    requires op == Rules.MarkProposal(rule.id, i, itemId, rule.actions[i], created, env.now)
    ensures Tracks(Append(w, op, cap), Reported(l, rule, env, cap, i, itemId, created, escapes), env, cap)
  {
    AppendTracks(w, l, env, cap, op);
  }

  /** Where reporting leads. */
  lemma ReportStep(w: World, e: Evaluation, created: bool, escapes: bool, op: Op, env: Rules.Env, registry: Registry, cap: int)
    returns (m: Moved)
    requires op == MarkProposal(e, created, w.clock)
    ensures m == EvalStep(w, EvalMark(e, created, escapes), ChoiceFor(env, EvalMark(e, created, escapes)), registry, cap)
    ensures m == Quiet(Append(w, op, cap), if escapes then Ready
                                           else EvalAction(e.(index := e.index + 1, executed := e.executed + (if created then 1 else 0))))
  {
    m := EvalStep(w, EvalMark(e, created, escapes), ChoiceFor(env, EvalMark(e, created, escapes)), registry, cap);
  }

  /** Where creating the approval leads. */
  lemma CreateStep(w: World, l: Rules.Loop, rule: Rules.Rule, env: Rules.Env, registry: Registry, cap: int, i: nat, itemId: string) returns (m: Moved)
    requires Tracks(w, l, env, cap) && i < |rule.actions| && rule.actions[i].Propose?
    ensures m == EvalStep(w, EvalCreate(Looking(rule, itemId, env, l, i)), ChoiceFor(env, EvalCreate(Looking(rule, itemId, env, l, i))), registry, cap)
    ensures var made := Rules.Proposed(registry, env, rule.actions[i], i);
      && m.world == (if made.None? then w else w.(records := Upsert(w.records, made.value)))
      && m.proc == EvalMark(Looking(rule, itemId, env, l, i), made.Some?, made.None?)
  {
    m := EvalStep(w, EvalCreate(Looking(rule, itemId, env, l, i)), ChoiceFor(env, EvalCreate(Looking(rule, itemId, env, l, i))), registry, cap);
  }

  lemma CreatesAlone(w: World, l: Rules.Loop, rule: Rules.Rule, env: Rules.Env, registry: Registry, cap: int, i: nat, itemId: string,
                     made: Option<Approval>, fuel: nat) returns (w': World)
    requires Tracks(w, l, env, cap) && i < |rule.actions| && rule.actions[i].Propose? && fuel >= 2
    requires made == Rules.Proposed(registry, env, rule.actions[i], i)
    ensures var l' := Reported(if made.None? then l else l.(records := Upsert(l.records, made.value)), rule, env, cap, i, itemId,
                               made.Some?, made.None?);
      && Tracks(w', l', env, cap)
      && Alone(w, EvalCreate(Looking(rule, itemId, env, l, i)), env, registry, cap, fuel)
         == Alone(w', PlaceAt(rule, itemId, env, l', i + 1), env, registry, cap, fuel - 2)
  {
    var m := CreateStep(w, l, rule, env, registry, cap, i, itemId);
    StepsTo(w, EvalCreate(Looking(rule, itemId, env, l, i)), m, env, registry, cap, fuel);
    var stored := if made.None? then l else l.(records := Upsert(l.records, made.value));
    w' := ReportsAlone(m.world, stored, rule, env, registry, cap, i, itemId, made.Some?, made.None?, fuel - 1);
  }

  /** Where the policy check leads. */
  lemma PolicyStep(w: World, e: Evaluation, act: Rules.RuleAct, env: Rules.Env, registry: Registry, cap: int) returns (m: Moved)
    requires e.index < |e.actions| && e.actions[e.index] == act && act.Propose?
    ensures m == EvalStep(w, EvalPolicy(e), ChoiceFor(env, EvalPolicy(e)), registry, cap)
    ensures m == Quiet(w, if Rules.PolicyAllows(registry, e.policy, act) then EvalCreate(e) else EvalMark(e, false, false))
  {
    m := EvalStep(w, EvalPolicy(e), ChoiceFor(env, EvalPolicy(e)), registry, cap);
  }

  lemma GrantedAlone(w: World, l: Rules.Loop, rule: Rules.Rule, env: Rules.Env, registry: Registry, cap: int, i: nat, itemId: string,
                     fuel: nat) returns (w': World, left: nat)
    requires Tracks(w, l, env, cap) && !l.failed && i < |rule.actions| && rule.actions[i].Propose? && fuel >= 3
    ensures var l' := Rules.Granted(l, rule, env, registry, cap, i, itemId, rule.actions[i]);
      && Tracks(w', l', env, cap) && left >= fuel - 3
      && Alone(w, EvalPolicy(Looking(rule, itemId, env, l, i)), env, registry, cap, fuel)
         == Alone(w', PlaceAt(rule, itemId, env, l', i + 1), env, registry, cap, left)
  {
    var e := Looking(rule, itemId, env, l, i);
    GrantedIsReported(l, rule, env, registry, cap, i, itemId);
    var m := PolicyStep(w, e, rule.actions[i], env, registry, cap);
    StepsTo(w, EvalPolicy(e), m, env, registry, cap, fuel);
    if Rules.PolicyAllows(registry, env.policy, rule.actions[i]) {
      left := fuel - 3;
      w' := CreatesAlone(w, l, rule, env, registry, cap, i, itemId, Rules.Proposed(registry, env, rule.actions[i], i), fuel - 1);
    } else {
      left := fuel - 2;
      w' := ReportsAlone(w, l, rule, env, registry, cap, i, itemId, false, false, fuel - 1);
    }
  }

  /** Where looking at an action leads, while the loop goes on. */
  lemma LookStep(w: World, l: Rules.Loop, rule: Rules.Rule, env: Rules.Env, registry: Registry, cap: int, i: nat, itemId: string) returns (m: Moved)
    requires Tracks(w, l, env, cap) && i < |rule.actions| && !Rules.Stopped(l, rule)
    ensures var e := Looking(rule, itemId, env, l, i);
      && m == EvalStep(w, EvalAction(e), ChoiceFor(env, EvalAction(e)), registry, cap)
      && m == Quiet(w, if rule.actions[i].Propose? && !w.safeMode then EvalClaim(e)
                       else PlaceAt(rule, itemId, env, Rules.ActStep(l, rule, env, registry, cap, i, itemId), i + 1))
    ensures rule.actions[i].Notify? || w.safeMode ==> Tracks(w, Rules.ActStep(l, rule, env, registry, cap, i, itemId), env, cap)
  {
    m := EvalStep(w, EvalAction(Looking(rule, itemId, env, l, i)), ChoiceFor(env, EvalAction(Looking(rule, itemId, env, l, i))), registry, cap);
  }

  /** Where the claim leads. */
  lemma ClaimStep(w: World, e: Evaluation, op: Op, env: Rules.Env, registry: Registry, cap: int) returns (m: Moved)
    requires op == StartProposal(e, w.clock)
    ensures m == EvalStep(w, EvalClaim(e), ChoiceFor(env, EvalClaim(e)), registry, cap)
    ensures m == if Open(w, op, cap) then Quiet(Append(w, op, cap), EvalPolicy(e)) else Quiet(w, Skip(e))
  {
    m := EvalStep(w, EvalClaim(e), ChoiceFor(env, EvalClaim(e)), registry, cap);
  }

  lemma ClaimedStep(l: Rules.Loop, rule: Rules.Rule, env: Rules.Env, registry: Registry, cap: int, i: nat, itemId: string, op: Op)
    requires i < |rule.actions| && !Rules.Stopped(l, rule) && rule.actions[i].Propose? && !env.safeMode
    requires op == Rules.StartProposal(rule.id, i, itemId, rule.actions[i], env.now)
    ensures Rules.ActStep(l, rule, env, registry, cap, i, itemId)
         == if Accepts(l.log.file, op)
            then Rules.Granted(l.(log := Perform(l.log, op, cap)), rule, env, registry, cap, i, itemId, rule.actions[i]) else l
  {
  }

  lemma ClaimsAlone(w: World, l: Rules.Loop, rule: Rules.Rule, env: Rules.Env, registry: Registry, cap: int, i: nat, itemId: string,
                    fuel: nat) returns (w': World, left: nat)
    requires Tracks(w, l, env, cap) && i < |rule.actions| && !Rules.Stopped(l, rule) && rule.actions[i].Propose? && !w.safeMode
    requires fuel >= 4
    ensures var l' := Rules.ActStep(l, rule, env, registry, cap, i, itemId);
      && Tracks(w', l', env, cap) && left >= fuel - 4
      && Alone(w, EvalClaim(Looking(rule, itemId, env, l, i)), env, registry, cap, fuel)
         == Alone(w', PlaceAt(rule, itemId, env, l', i + 1), env, registry, cap, left)
  {
    var e := Looking(rule, itemId, env, l, i);
    var op := Rules.StartProposal(rule.id, i, itemId, rule.actions[i], env.now);
    ClaimedStep(l, rule, env, registry, cap, i, itemId, op);
    var m := ClaimStep(w, e, op, env, registry, cap);
    StepsTo(w, EvalClaim(e), m, env, registry, cap, fuel);
    if Accepts(l.log.file, op) {
      AppendTracks(w, l, env, cap, op);
      var claimed := l.(log := Perform(l.log, op, cap));
      assert Looking(rule, itemId, env, claimed, i) == e && m == Quiet(Append(w, op, cap), EvalPolicy(e));
      w', left := GrantedAlone(Append(w, op, cap), claimed, rule, env, registry, cap, i, itemId, fuel - 1);
    } else {
      assert m == Quiet(w, Skip(e)) && Skip(e) == PlaceAt(rule, itemId, env, l, i + 1);
      w', left := w, fuel - 1;
    }
  }

  /** One action, left alone. */
  lemma ActsAlone(w: World, l: Rules.Loop, rule: Rules.Rule, env: Rules.Env, registry: Registry, cap: int, i: nat, itemId: string,
                  fuel: nat) returns (w': World, left: nat)
    requires Tracks(w, l, env, cap) && i < |rule.actions| && !Rules.Stopped(l, rule) && fuel >= 5
    ensures var l' := Rules.ActStep(l, rule, env, registry, cap, i, itemId);
      && Tracks(w', l', env, cap) && left >= fuel - 5
      && Alone(w, EvalAction(Looking(rule, itemId, env, l, i)), env, registry, cap, fuel)
         == Alone(w', PlaceAt(rule, itemId, env, l', i + 1), env, registry, cap, left)
  {
    var e := Looking(rule, itemId, env, l, i);
    var m := LookStep(w, l, rule, env, registry, cap, i, itemId);
    StepsTo(w, EvalAction(e), m, env, registry, cap, fuel);
    if rule.actions[i].Notify? || w.safeMode {
      w', left := w, fuel - 1;
    } else {
      w', left := ClaimsAlone(w, l, rule, env, registry, cap, i, itemId, fuel - 1);
    }
  }

  /** State `k + 1` of the loop comes from state `k` by looking at action `k`. */
  predicate Acts(loops: seq<Rules.Loop>, rule: Rules.Rule, env: Rules.Env, registry: Registry, cap: int, itemId: string, k: nat)
    requires k < |rule.actions| && |loops| == |rule.actions| + 1
  {
    loops[k + 1] == Rules.ActStep(loops[k], rule, env, registry, cap, k, itemId)
  }

  ghost predicate ActsThroughout(loops: seq<Rules.Loop>, rule: Rules.Rule, env: Rules.Env, registry: Registry, cap: int, itemId: string) {
    && |loops| == |rule.actions| + 1
    && forall k :: 0 <= k < |rule.actions| ==> Acts(loops, rule, env, registry, cap, itemId, k)
  }

  lemma LoopStates(l: Rules.Loop, rule: Rules.Rule, env: Rules.Env, registry: Registry, cap: int, itemId: string)
    returns (loops: seq<Rules.Loop>)
    ensures ActsThroughout(loops, rule, env, registry, cap, itemId) && loops[0] == l
    ensures loops[|rule.actions|] == Rules.RunActions(l, rule, env, registry, cap, |rule.actions|, itemId)
  {
    loops := seq(|rule.actions| + 1, k requires 0 <= k < |rule.actions| + 1 => Rules.RunActions(l, rule, env, registry, cap, k, itemId));
  }

  lemma {:induction false} StoppedStays(loops: seq<Rules.Loop>, rule: Rules.Rule, env: Rules.Env, registry: Registry, cap: int, itemId: string,
                                        i: nat, n: nat)
    requires ActsThroughout(loops, rule, env, registry, cap, itemId) && i <= n <= |rule.actions| && Rules.Stopped(loops[i], rule)
    ensures loops[n] == loops[i]
  {
    if i < n {
      StoppedStays(loops, rule, env, registry, cap, itemId, i, n - 1);
      assert Acts(loops, rule, env, registry, cap, itemId, n - 1);
    }
  }

  lemma NoActionLeft(w: World, loops: seq<Rules.Loop>, rule: Rules.Rule, itemId: string, env: Rules.Env, registry: Registry, cap: int,
                     i: nat, fuel: nat)
    requires ActsThroughout(loops, rule, env, registry, cap, itemId) && i <= |rule.actions|
    requires i == |rule.actions| || Rules.Stopped(loops[i], rule)
    ensures Alone(w, PlaceAt(rule, itemId, env, loops[i], i), env, registry, cap, fuel) == w
    ensures loops[|rule.actions|] == loops[i]
  {
    if i < |rule.actions| {
      StoppedStays(loops, rule, env, registry, cap, itemId, i, |rule.actions|);
    }
  }

  /** From action `i` on. */
  lemma {:induction false} RestAlone(w: World, loops: seq<Rules.Loop>, rule: Rules.Rule, env: Rules.Env, registry: Registry, cap: int,
                                     i: nat, itemId: string, fuel: nat)
    requires ActsThroughout(loops, rule, env, registry, cap, itemId) && i <= |rule.actions| && fuel >= 5 * (|rule.actions| - i) + 1
    requires Tracks(w, loops[i], env, cap)
    ensures Tracks(Alone(w, PlaceAt(rule, itemId, env, loops[i], i), env, registry, cap, fuel), loops[|rule.actions|], env, cap)
    decreases |rule.actions| - i
  {
    if i == |rule.actions| || Rules.Stopped(loops[i], rule) {
      NoActionLeft(w, loops, rule, itemId, env, registry, cap, i, fuel);
    } else {
      var w', left := ActsAlone(w, loops[i], rule, env, registry, cap, i, itemId, fuel);
      assert Acts(loops, rule, env, registry, cap, itemId, i);
      RestAlone(w', loops, rule, env, registry, cap, i + 1, itemId, left);
    }
  }

  /** Main result: an evaluation that nobody interrupts leaves the approvals and the ledger exactly as
      the engine's action loop does. */
  lemma EvaluationAloneIsTheLoop(w: World, l: Rules.Loop, rule: Rules.Rule, env: Rules.Env, registry: Registry, cap: int,
                                 itemId: string, fuel: nat)
    requires Tracks(w, l, env, cap) && !l.failed && l.executed == [] && fuel >= 5 * |rule.actions| + 1
    ensures Tracks(Alone(w, EvalAction(Looking(rule, itemId, env, l, 0)), env, registry, cap, fuel),
                   Rules.RunActions(l, rule, env, registry, cap, |rule.actions|, itemId), env, cap)
  {
    var loops := LoopStates(l, rule, env, registry, cap, itemId);
    RestAlone(w, loops, rule, env, registry, cap, 0, itemId, fuel);
  }
}
