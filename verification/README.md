# BENJAMIN core: side effects at most once, and only when authorised

This project models the cooperating state machines of `src/benjamin/core` and proves what they promise
together. The stateful objects (ledger, stores, executor, service, engine, evaluator, breakers, doctor) are
classes whose methods are proved equal to a specification function of the old state; the promises are
lemmas about those functions and about runs of them.

| files | what they model |
|---|---|
| `Ledger.dfy` | the append-only execution ledger, its cap, and the decision of `try_start` |
| `LedgerLock.dfy` | the lock-file protocol, one file-system action per step, any number of processes, crashes |
| `Guard.dfy` | the discipline all callers of the ledger follow: claim, effect, report |
| `Policy.dfy`, `Approvals.dfy` | scopes, overrides and allowlist; the approval store; the executor's gates |
| `ApprovalService.dfy` | `create_pending`, `approve`, `reject`, cleanup, and the lifecycle over runs of calls |
| `Interleaving.dfy` | the whole system with a switch, a crash or another process possible between any two steps |
| `AtMostOnce.dfy`, `Authorisation.dfy` | the two safety theorems about every interleaving |
| `Atomicity.dfy`, `EvaluationAlone.dfy` | an uninterrupted process is the atomic call, so both views are one program |
| `Finality.dfy`, `DecidedRuns.dfy`, `Overlap.dfy` | although calls overlap: when a decision is final, when it stops the step, and how an overlapping reject gets lost |
| `RuleCursors.dfy`, `RuleEngine.dfy`, `RuleGuarantees.dfy`, `RuleSweep.dfy` | deduplication state, evaluation and preview, cap and cooldown, the rule store and the evaluator job |
| `Breaker.dfy`, `BreakerManager.dfy` | the circuit breaker, its persistence and restarts |
| `Doctor.dfy`, `Critic.dfy`, `HttpRetry.dfy` | compaction and repair, the plan normaliser, the retry loop |
| `Sequences.dfy`, `Elapsed.dfy` | sequence and division facts shared by the above |

Timestamps are integers and only their order and differences matter. A ledger key is a constructor
applied to the parts that the program hashes, so equal keys mean equal parts. Skill runs, service calls,
jitters, fresh ids, policies read from the environment and clock readings are parameters, chosen freely
at every step. A crash drops a process and keeps the files.

## Where the code and its promises part

Each entry names the lemma that shows the failure and the one that says when the promise holds.

- A closed ledger key opens again once `cap` later records evict it, and only then: `Guard.EvictionRepeatsEffect`;
  exactly when: `Ledger.ClosedKeyReopensIffEvicted`.
- The lock excludes nobody once a waiter has passed its two-second deadline: `LedgerLock.DeadlineBreaksExclusion`;
  exactly when: `LedgerLock.ExclusionHoldsIffNobodyGivesUp`.
- A crash or an escaping exception between claim and run means that the next approve reports success
  without ever running the step: `ApprovalService.CrashAfterClaimLosesTheRun`, `ApprovalService.EscapedStepIsNeverRun`;
  exactly when an approve runs its step: `ApprovalService.ApproveRunsExactlyWhenAllowed`; that only an unreported
  claim can make such an answer untrue: `AtMostOnce.DuplicateOfSuccessIsTrue`.
- A reject that has returned does not stop an approve that had read the record before: the approve runs the
  rejected step and settles the record anew, with automatic cleaning on or off: `Overlap.StaleApproveRunsRejectedStep`;
  exactly when a decided step can never run: `DecidedRuns.NeverExecutedExactlyWhenNobodyLive`; exactly when what the
  store holds under a decided id never changes: `Finality.DecidedIsFinalExactlyWhenUnheld`.
- A failing proposal keeps the cooldown of a notifying rule from ever starting: `RuleGuarantees.FailingProposalDefeatsCooldown`;
  exactly when the cooldown starts: `RuleGuarantees.CooldownStartsExactlyWhen`.
- The preview counts blocked actions against the cap and the evaluation does not: `RuleGuarantees.PreviewIsPrefixOfEvaluation`
  says exactly when the two still agree.
- A restart forgets breakers outside the three named services: `BreakerManager.RestartForgetsOnlyUnnamed`, exactly which.
- A crash inside the last half-open trial locks a service out for good: `BreakerManager.CrashInsideTrialLocksOut`;
  exactly when it does: `BreakerManager.CrashLocksOutIffLastTrial`; exactly when a breaker never admits again: `Breaker.LockedOutIffNeverAdmits`.
- An invalid default time zone is written into a plan that the next review refuses: `Critic.SecondReviewDependsOnDefault`
  says, for every accepted plan, exactly when.
- Retry settings from the environment are not clamped: `HttpRetry.RequestJson` says exactly when the fallback
  error is reached, `HttpRetry.NegativeBaseRefusesToRetry` exactly when a negative base still lets a request be repeated.

## Model

| member | source | states |
|---|---|---|
| Ledger.CappedLedgerRefinesHistory | src/benjamin/core/ledger/ledger.py:27-70 | over every run of `try_start`/`mark` from an empty file and for every cap, the file is the last `cap` records ever appended, and a start is granted exactly when the key has no retained record or its last one, retained, is failed or skipped; a cap of zero or less lets the whole history decide |
| Ledger.LatestInWindow | src/benjamin/core/ledger/ledger.py:112-151 | the capped file shows the history's latest record of a key exactly while that record is retained |
| Ledger.StartableMeansCanStart | src/benjamin/core/ledger/ledger.py:34-37 | the decision on the trimmed file equals the positional reading of the unbounded history |
| Ledger.ClosedKeyReopensIffEvicted | src/benjamin/core/ledger/ledger.py:34-50 | a key whose last record is started or succeeded can start again by itself exactly when `cap` later records have pushed that record out |
| Ledger.ClosedUntilReopened | src/benjamin/core/ledger/ledger.py:27-70 | a granted key stays closed until it is marked failed or skipped, whatever else is recorded |
| Ledger.OneWinnerPerEpisode | src/benjamin/core/ledger/ledger.py:34-50 | two granted starts of one key have a failed or skipped mark of it between them, or more than `cap` records |
| Ledger.ExecutionLedger.LatestRecordByKey | src/benjamin/core/ledger/ledger.py:147-151 | the one-pass dictionary holds for each key its newest record, and no other key |
| Ledger.ExecutionLedger.HasSucceeded | src/benjamin/core/ledger/ledger.py:23-25 | true exactly when the newest record of the key is succeeded |
| Ledger.ExecutionLedger.Trim | src/benjamin/core/ledger/ledger.py:112-124 | keeps exactly the last `cap` records; zero or less keeps all |
| Ledger.ExecutionLedger.TryStart | src/benjamin/core/ledger/ledger.py:27-50 | answers by the history-based rule and appends the started record only when granted, keeping the file equal to the window of the history |
| Ledger.ExecutionLedger.MarkKey | src/benjamin/core/ledger/ledger.py:52-70 | appends a record that inherits kind, correlation and metadata from the newest retained record, keeping the window |
| LedgerLock.LockSerialises | src/benjamin/core/ledger/ledger.py:156-180 | for any number of processes in file mode, in every interleaving with crashes and without a waiter past its deadline: the lock file exists exactly while some process is between entering and removing it, no two are inside, and the completed operations are answered as if performed one after the other |
| LedgerLock.ExclusivePreserved | src/benjamin/core/ledger/ledger.py:162-180 | each file-system step keeps mutual exclusion, as long as no waiter gives up |
| LedgerLock.InvPreserved | src/benjamin/core/ledger/ledger.py:27-70 | each step keeps the file equal to the serial log extended by the operation in progress |
| LedgerLock.RacingStartsHaveOneWinner | src/benjamin/core/ledger/ledger.py:34-50 | of two racing starts of one key that both win, one follows a reopening mark or an eviction |
| LedgerLock.OnlyGivingUpBreaksExclusion | src/benjamin/core/ledger/ledger.py:162-171 | from a state with exclusion, the steps that end it are exactly those of a waiter that passes its deadline |
| LedgerLock.ExclusionHoldsIffNobodyGivesUp | src/benjamin/core/ledger/ledger.py:162-180 | a run keeps exclusion throughout exactly when no waiter ever passes its two-second deadline |
| LedgerLock.DeadlineBreaksExclusion | src/benjamin/core/ledger/ledger.py:168-171 | a run in which a waiter passes the deadline and both processes win the same key |
| Guard.OncePreserved | src/benjamin/core/ledger/ledger.py:27-70 | claim before effect before report: each step of any number of workers, crashes included, keeps every retained key at no more than one successful effect |
| Guard.AtMostOnce | src/benjamin/core/ledger/ledger.py:27-70 | so over whole runs an effect under a key that is never evicted succeeds at most once |
| Guard.AtMostOnceUncapped | src/benjamin/core/ledger/ledger.py:112-114 | with the cap lifted nothing is ever evicted, so the bound holds without a hypothesis |
| Guard.SucceededIsTrue | src/benjamin/core/ledger/ledger.py:52-70 | over whole runs, with any evictions and crashes: a key whose latest record is succeeded has had its effect |
| Guard.EvictionRepeatsEffect | src/benjamin/core/ledger/ledger.py:112-124 | a run in which eviction lets one key's effect succeed twice: the window hypothesis is needed |
| Policy.PermissionsPolicy.CheckScopes | src/benjamin/core/security/policy.py:65-67 | passes exactly when every listed scope is enabled |
| Policy.PermissionsPolicy.CheckRulesAllowlist | src/benjamin/core/security/policy.py:69-71 | passes exactly when every listed scope is one that rules may use |
| Policy.SnapshotRestores | src/benjamin/core/security/policy.py:76-83 | applying a policy's snapshot to any policy of the same mode reproduces its answers on every known scope |
| Approvals.ApprovalStore.GetRecord | src/benjamin/core/approvals/store.py:51-55 | the first record with the id, or none |
| Approvals.ApprovalStore.UpsertRecord | src/benjamin/core/approvals/store.py:70-80 | replaces the first record with the id in place, or appends |
| Approvals.ApprovalStore.DeleteRecord | src/benjamin/core/approvals/store.py:82-84 | afterwards exactly the records with other ids are left, in their old order |
| Approvals.ApprovalStore.CleanupExpired | src/benjamin/core/approvals/store.py:86-101 | removes or marks exactly the pending overdue records, counts them, and leaves the file unwritten when there are none |
| ApprovalService.UpsertContents | src/benjamin/core/approvals/store.py:70-80 | with unique ids an upsert changes only the record of that id, and ids stay unique |
| ApprovalService.CleanedContents | src/benjamin/core/approvals/store.py:86-101 | cleanup keeps ids unique, keeps every other record, and drops or expires only overdue pending ones |
| Approvals.UnforcedPlansNeverWrite | src/benjamin/core/orchestration/executor.py:26-144 | a plan executed without force never runs a write skill, whatever its length and whatever policy and safe mode do between its steps |
| Approvals.Executor.ExecutePlan | src/benjamin/core/orchestration/executor.py:120-144 | the loop performs the gated steps in order (scopes, safe mode, approval, run), one result each, and an escaping exception ends it |
| ApprovalService.ServiceObject.CreatePending | src/benjamin/core/approvals/service.py:40-83 | makes a record exactly for a registered write skill with safe mode off and every needed scope enabled; the record is then found under its id, pending, with the step as given, and can be decided until its time to live is over |
| ApprovalService.ServiceObject.PersistOrClean | src/benjamin/core/approvals/service.py:266-271 | stores the record, or deletes it when it is decided and autoclean is on |
| ApprovalService.ServiceObject.RejectRecord | src/benjamin/core/approvals/service.py:234-261 | all branches of `reject` on the files it touches |
| ApprovalService.ServiceObject.ExecuteClaimed | src/benjamin/core/approvals/service.py:153-219 | claims the key; a refused claim stores the record as approved without a run, a granted one runs with force, marks the key and stores the record |
| ApprovalService.ServiceObject.ApproveRecord | src/benjamin/core/approvals/service.py:88-232 | all branches of `approve` on the store, the ledger and the runs |
| ApprovalService.ApproveRunsExactlyWhenAllowed | src/benjamin/core/approvals/service.py:88-205 | approving runs a skill exactly when the record is pending, unexpired and permitted with safe mode off, the history of its key lets it start, and the executor's own checks pass; then it runs that record's step, once |
| ApprovalService.ApproveRefusesExactlyWhen | src/benjamin/core/approvals/service.py:89-147 | which calls are answered 404, 409 and 400, and what a refusal leaves in the store |
| ApprovalService.ForcedStepKeepsRecords | src/benjamin/core/orchestration/executor.py:90-116 | with force no approval is created, and one result comes back unless an exception escapes |
| ApprovalService.ServeConserves | src/benjamin/core/approvals/service.py:40-271 | each of create, approve, reject and cleanup, autoclean on or off: ids stay unique, decided records are never rewritten, and a pending record that is not overdue changes only by the call that targets it, and then only to approved or rejected |
| ApprovalService.RunsAreLawful | src/benjamin/core/approvals/service.py:40-271 | the same over every sequence of calls |
| ApprovalService.DecidedIsFinal | src/benjamin/core/approvals/service.py:88-271 | over every sequence of atomic calls and with autoclean on or off: once no record under an issued id is pending, what the store holds there (the decided record, or nothing after cleaning) never changes, and no approve or reject of it stores, records or runs anything |
| ApprovalService.PendingIsNeverLost | src/benjamin/core/approvals/service.py:88-271 | a pending record whose expiry lies ahead stays in the store unchanged until a call targets it |
| ApprovalService.CrashAfterClaimLosesTheRun | src/benjamin/core/approvals/service.py:153-193 | after a crash between claim and run, the next approve answers approved, stores that, and runs nothing |
| ApprovalService.EscapedStepIsNeverRun | src/benjamin/core/approvals/service.py:155-205 | approving an unregistered skill escapes with the key claimed; approving again once it is registered reports success without a run |
| AtMostOnce.Refines | src/benjamin/core/approvals/service.py:88-232 | every step of the interleaved system (approvers, rejecters, plans, rule evaluations, jobs, crashes) is a step of the claim-effect-report discipline |
| AtMostOnce.StepDisciplined | src/benjamin/core/approvals/service.py:153-219 | each process writes the ledger only by claims and reports of its own key, and acts only while it owns the key |
| AtMostOnce.SideEffectsHappenAtMostOnce | src/benjamin/core/approvals/service.py:153-219 | in every interleaving with crashes anywhere, no guarded effect succeeds twice while its key stays in the ledger window |
| AtMostOnce.ApprovalExecutesAtMostOnce | src/benjamin/core/approvals/service.py:88-232 | in particular an approval's stored step completes successfully at most once while its key stays in the window |
| AtMostOnce.ProposalCreatedAtMostOnce | src/benjamin/core/rules/engine.py:99-190 | and for each rule, action index, first item and action signature at most one approval is created while the key stays in the window, even if cursor updates are lost by crashes |
| AtMostOnce.DuplicateOfSuccessIsTrue | src/benjamin/core/approvals/service.py:153-193 | in every interleaving, a claim refused for any other reason than a started record finds the step executed successfully before, so the duplicate answer is true |
| Authorisation.EveryWriteIsAuthorised | src/benjamin/core/orchestration/executor.py:26-118 | in every interleaving a write skill runs only with force, for a record that its approver had read as pending and then found unexpired, and afterwards, in the executor's step, with every scope the skill requires enabled and safe mode off |
| Authorisation.InvPreserved | src/benjamin/core/approvals/service.py:102-207 | each step keeps the observations an approver relies on true of the moments it made them |
| Atomicity.ApproveAloneIsAtomic | src/benjamin/core/approvals/service.py:88-232 | the step-by-step approve that nobody interrupts leaves the files exactly as the atomic call |
| Atomicity.ApproveAloneRunsTheSame | src/benjamin/core/approvals/service.py:88-232 | and the skill runs that its events record are exactly those of the atomic call |
| Atomicity.RejectAloneIsAtomic | src/benjamin/core/approvals/service.py:234-261 | the same for reject |
| EvaluationAlone.EvaluationAloneIsTheLoop | src/benjamin/core/rules/engine.py:82-190 | the step-by-step rule evaluation that nobody interrupts leaves approvals and ledger exactly as the engine's action loop |
| Finality.DecidedIsFinalExactlyWhenUnheld | src/benjamin/core/approvals/service.py:88-271 | at any point of any interleaved run and with autoclean on or off: once no record under an id is pending, what the store holds there (the decided record, or nothing after cleaning) never changes in any continuation that does not issue the id again, exactly when no approve or reject in flight holds a copy |
| Finality.StaysExactlyUnlessOverwritten | src/benjamin/core/approvals/service.py:266-271 | a single step replaces or removes a decided record exactly when a process settles a copy of it to another outcome or cleans it away, or its id is issued again |
| Finality.UnheldDecisionStays | src/benjamin/core/approvals/service.py:88-271 | once nobody holds a copy and no record under the id is pending, what is stored there, be it a decided record or nothing, stays in every continuation |
| Finality.HolderCanSettle | src/benjamin/core/approvals/service.py:102-219 | from every state with a holder some continuation leaves nothing stored under the id, and some continuation leaves a record there |
| DecidedRuns.NeverExecutedExactlyWhenNobodyLive | src/benjamin/core/approvals/service.py:88-219 | at any point of any interleaved run and with autoclean on or off: once no record under an id is pending, its step is never executed again in any continuation that does not issue the id again, exactly when no approve in flight holds a copy that is unexpired where expiry is still to be checked and whose key is, or can still become, free where it is still to be claimed |
| DecidedRuns.NobodyBecomesLive | src/benjamin/core/approvals/service.py:88-219 | no step of anybody makes an approve able to run a decided record |
| DecidedRuns.LiveCanRun | src/benjamin/core/approvals/service.py:102-207 | from every approve that still can, some continuation runs the step without touching the autoclean switch: at once, after another approve's failed report, or after the cap has evicted the key |
| Overlap.StaleApproveRunsRejectedStep | src/benjamin/core/approvals/service.py:193-271 | from every state in which an approve would run its step, autoclean on or off, an approve and a reject can overlap so that the reject has settled the record and returned, and the approve then runs the step and settles the record as approved |
| RuleCursors.RuleState.FilterNewItems | src/benjamin/core/rules/engine.py:403-415 | the loop keeps exactly the new items, in order |
| RuleCursors.FilterNewContents | src/benjamin/core/rules/engine.py:403-415 | an item is a candidate exactly when its id is not in the seen list and its timestamp is not at or before the cursor |
| RuleCursors.RuleState.UpdateCursors | src/benjamin/core/rules/engine.py:434-460 | the loop moves every processed id to the end, truncates, and advances the cursor to the greatest timestamp |
| RuleCursors.SeenListIsRecentIds | src/benjamin/core/rules/engine.py:434-460 | after any number of evaluations from empty, the seen list is the last `seen_ids_max` of all processed ids listed once each by last occurrence |
| RuleCursors.MovesCommuteWithTruncation | src/benjamin/core/rules/engine.py:444-459 | truncating after every run commutes with moving ids to the end |
| RuleCursors.SeenListIsBounded | src/benjamin/core/rules/engine.py:458-459 | the seen list is duplicate-free and within its limit |
| RuleCursors.TimestampedNeverRefires | src/benjamin/core/rules/engine.py:403-460 | once an item is processed nothing with the same or an earlier timestamp is ever a candidate again |
| RuleCursors.UntimestampedRefiresIffForgotten | src/benjamin/core/rules/engine.py:403-460 | an untimestamped id is a candidate again exactly when at least the limit of distinct other ids were processed since |
| RuleGuarantees.CursorsFollowCompleted | src/benjamin/core/rules/engine.py:65-214 | along any run of evaluations, with cooldowns, degraded services and failures between them, the cursors are those of the completed evaluations alone |
| RuleGuarantees.SavingIsInvisible | src/benjamin/core/rules/evaluator.py:76-81 | saving the rule after every evaluation changes nothing once it has been through the store |
| RuleGuarantees.EngineNeverRefires | src/benjamin/core/rules/engine.py:403-460 | along any run of the engine with a save after each evaluation, a timestamp that a completed evaluation has processed never yields a candidate again |
| RuleGuarantees.EngineRefiresIffForgotten | src/benjamin/core/rules/engine.py:403-460 | along such a run an untimestamped id is a candidate again exactly when it was never processed or at least the limit of distinct other ids were since |
| RuleCursors.StoreIsInvisible | src/benjamin/core/rules/store.py:31-45 | saving and loading between evaluations changes nothing once a rule has been through the store |
| RuleEngine.MatchingItems | src/benjamin/core/rules/engine.py:417-432 | the loop keeps exactly the items that contain the one text and not the other; no condition keeps all |
| RuleEngine.Engine.ProposeStep | src/benjamin/core/rules/engine.py:99-190 | claim, policy checks, approval and report of one proposal, in all branches |
| RuleEngine.Engine.RunAllActions | src/benjamin/core/rules/engine.py:82-190 | the action loop with its cap; a notifier or a creation that raises ends it |
| RuleEngine.Engine.EvaluateRule | src/benjamin/core/rules/engine.py:65-214 | one evaluation: cooldown test, loading, matching, actions, cooldown and cursors; any exception leaves cursor and cooldown as they were |
| RuleEngine.PlanActions | src/benjamin/core/rules/engine.py:263-318 | the plan with its own cap and its blocked proposals |
| RuleGuarantees.PreviewIsPrefixOfEvaluation | src/benjamin/core/rules/engine.py:216-318 | in a steady setting without ledger hits the unblocked planned actions are a prefix of the executed ones, and equal to them exactly when nothing within the cap is blocked or everything beyond it is |
| RuleGuarantees.LoopOutcome | src/benjamin/core/rules/engine.py:82-190 | under one policy and safe mode, whatever keys the ledger refuses, the loop fails exactly when an action that raises and is neither blocked nor refused comes before the cap is reached, and otherwise executes the first actions that are neither, up to the cap |
| RuleGuarantees.ActionsAreCapped | src/benjamin/core/rules/engine.py:86-88 | an evaluation executes at most `max_actions_per_run` actions |
| RuleGuarantees.FiringsAreACooldownApart | src/benjamin/core/rules/engine.py:71-74 | two evaluations that end well and execute something are at least a cooldown apart |
| RuleGuarantees.EngineObeys | src/benjamin/core/rules/engine.py:65-214 | firing arms the cooldown and nothing else moves it, and while it runs nothing is executed: the law that the two results about firing rest on |
| RuleGuarantees.CooldownBoundsRate | src/benjamin/core/rules/engine.py:192-194 | within an interval of length L there are at most floor(L / cooldown) + 1 of them |
| RuleGuarantees.CooldownStartsExactlyWhen | src/benjamin/core/rules/engine.py:192-214 | an evaluation that reaches its loop starts the cooldown exactly when no action that raises and is neither blocked nor refused by the ledger comes before the cap, the cap admits an action and not all are blocked or refused; read off the rule, its surroundings and the ledger before the call |
| RuleGuarantees.FailingProposalDefeatsCooldown | src/benjamin/core/rules/engine.py:188-214 | a rule that notifies and then proposes a skill that cannot be proposed notifies at each of any number of evaluations, whatever its cooldown and the ledger's cap |
| RuleSweep.RuleStore.Upsert | src/benjamin/core/rules/store.py:63-74 | the loop replaces the first rule with the id, or appends; the whole file is migrated and rewritten |
| RuleSweep.RuleStore.Delete | src/benjamin/core/rules/store.py:76-82 | removes every rule with the id; an unknown id leaves the file unwritten |
| RuleSweep.RuleStore.ListAll | src/benjamin/core/rules/store.py:14-26 | every stored rule as the migration leaves it, each once, the last one first |
| RuleSweep.MigrateIsIdempotent | src/benjamin/core/rules/store.py:31-45 | migrating twice is migrating once |
| RuleSweep.UpsertReplaces | src/benjamin/core/rules/store.py:63-74 | with distinct ids a save replaces one rule and leaves the others as loaded |
| RuleSweep.UpsertKeepsIdsDistinct | src/benjamin/core/rules/store.py:63-74 | no save gives two rules one id |
| RuleSweep.Evaluator.RunRulesEvaluation | src/benjamin/core/rules/evaluator.py:40-90 | the job: claim its key, evaluate and save each enabled rule of the listing, mark the key succeeded, or failed once a save raises; skipped as a whole when the key is closed |
| RuleSweep.SweepEvaluatesEachRuleOnce | src/benjamin/core/rules/evaluator.py:76-81 | although each save rewrites the whole file, the sweep leaves every enabled rule as its own single evaluation made it, up to the first save that raises, and every other rule as it was, in their old places |
| RuleSweep.JobReopensIffFailed | src/benjamin/core/rules/evaluator.py:82-89 | a job that ran leaves its key open exactly when a save raised |
| RuleSweep.FinishedJobIsNotRepeated | src/benjamin/core/rules/evaluator.py:40-55 | a job that ended well and is started again under its key evaluates nothing and changes no file, whatever was recorded in between, as long as nothing marked the key failed or skipped and the cap has not pushed its record out |
| Breaker.CircuitBreaker.AllowRequest | src/benjamin/core/infra/breaker.py:47-62 | the three-state admission |
| Breaker.CircuitBreaker.RecordSuccess | src/benjamin/core/infra/breaker.py:64-74 | resets the breaker and reports the transition, if any |
| Breaker.CircuitBreaker.RecordFailure | src/benjamin/core/infra/breaker.py:76-97 | counts, opens or reopens, and reports the transition, if any |
| Breaker.StateFollowsFailures | src/benjamin/core/infra/breaker.py:47-97 | after any interleaving of calls: the count is the failures since the last success, closed exactly below the threshold, not closed means opened at the last failure, and each half-open episode has admitted between one and the configured trials |
| Breaker.HalfOpenNeverSurvivesAWrap | src/benjamin/core/infra/breaker_manager.py:69-99 | no wrap that ran to its end leaves the breaker half open |
| Breaker.OutageLoadBound | src/benjamin/core/infra/breaker_manager.py:69-99 | in any window of T seconds of an outage at most threshold + floor(T / open_seconds) calls reach the service, from every state that wraps can leave |
| Breaker.WrapKeepsBetween | src/benjamin/core/infra/breaker_manager.py:69-99 | a fresh breaker and every breaker that wraps leave satisfies the hypothesis of the load bound |
| Breaker.LockedOutIffNeverAdmits | src/benjamin/core/infra/breaker.py:57-61 | a breaker refuses at every time exactly when it is half open with all trials used |
| Breaker.LockedOutForever | src/benjamin/core/infra/breaker_manager.py:69-78 | and then no later wrap ever reaches the service |
| BreakerManager.PayloadRoundTrips | src/benjamin/core/infra/breaker.py:99-130 | saving and loading a breaker loses nothing, and a missing entry is a fresh breaker |
| BreakerManager.ManagerObject.constructor | src/benjamin/core/infra/breaker_manager.py:36-54 | rebuilds the three named breakers from the file |
| BreakerManager.ManagerObject.Get | src/benjamin/core/infra/breaker_manager.py:56-64 | the service's breaker, created on first use, the others untouched |
| BreakerManager.ManagerObject.WrapCall | src/benjamin/core/infra/breaker_manager.py:69-99 | one wrapped call: admission, outcome, and the file equal to the breakers after each change |
| BreakerManager.RestartsAreInvisible | src/benjamin/core/infra/breaker_manager.py:44-102 | for the named services, restarts between any wraps leave the same breakers as never restarting |
| BreakerManager.RestartsNeverChangeAnAnswer | src/benjamin/core/infra/breaker_manager.py:44-102 | and the same answer to every later call |
| BreakerManager.RestartForgetsOnlyUnnamed | src/benjamin/core/infra/breaker_manager.py:46-54 | a restart changes the view of a service exactly when it is not one of the three named and its breaker is not fresh |
| BreakerManager.CrashInsideTrialLocksOut | src/benjamin/core/infra/breaker_manager.py:80-84 | a crash that leaves every half-open trial used leaves a service that is never reached again, across wraps and restarts |
| BreakerManager.CrashLocksOutIffLastTrial | src/benjamin/core/infra/breaker_manager.py:80-84 | a crash inside an admitted call does so exactly when the call was the last half-open trial |
| Doctor.JsonlReport | src/benjamin/core/ops/doctor.py:113-160 | one pass: valid rows in order, counts, newest timestamp and the first three invalid line numbers |
| Doctor.InvalidLinesAreListed | src/benjamin/core/ops/doctor.py:132-153 | a line number is listed exactly when that line is invalid |
| Doctor.KeepLastRows | src/benjamin/core/ops/doctor.py:236-245 | the backward walk with the seen set keeps exactly the rows that no later row supersedes |
| Doctor.CompactRows | src/benjamin/core/ops/doctor.py:232-248 | keep-last for episodic and tasks, then retention |
| Doctor.CompactIsSubsequenceWithinLimit | src/benjamin/core/ops/doctor.py:232-248 | compaction yields an order-preserving part within the limit |
| Doctor.CompactKeepsExactlyLastRows | src/benjamin/core/ops/doctor.py:235-247 | each surviving non-empty id has exactly one row, its last |
| Doctor.CompactLosesNoIdWithinLimit | src/benjamin/core/ops/doctor.py:235-247 | within the limit every id and every row without an id survives |
| Doctor.CompactIsIdempotent | src/benjamin/core/ops/doctor.py:232-248 | compacting twice is compacting once |
| Doctor.TreatedRows | src/benjamin/core/ops/doctor.py:305-312 | repair alone loses no valid row; a repairing run leaves no invalid line |
| Doctor.RerunRewritesNothing | src/benjamin/core/ops/doctor.py:299-315 | running again with the same flags and limits rewrites nothing |
| Doctor.MaintenanceIsStable | src/benjamin/core/ops/doctor.py:299-329 | the whole directory is a fixpoint of a second run, and healthy after a repairing one |
| Doctor.StateDirectory.Tend | src/benjamin/core/ops/doctor.py:301-315 | report, repair and compact one line file |
| Doctor.StateDirectory.RunDoctor | src/benjamin/core/ops/doctor.py:290-342 | every known artifact is treated on its own and reported as it is left, `ok` means no line file has an invalid line, and the summary counts files, missing files and invalid lines |
| Doctor.CompactionKeepsLatestRecords | src/benjamin/core/ops/doctor.py:272-279 | every surviving ledger key keeps its latest record, and a key may start afterwards exactly when it could before or its latest record was cut off |
| Doctor.CompactionIsInvisibleToLedger | src/benjamin/core/ops/doctor.py:272-279 | with the shared limit, compaction leaves every file a ledger can have produced untouched |
| Critic.Review | src/benjamin/core/orchestration/critic.py:16-38 | reviews in place up to the first refusal: earlier steps stay normalised, later ones untouched |
| Critic.GatherRecipients | src/benjamin/core/orchestration/critic.py:104-112 | the loops yield the trimmed non-empty addresses once each, at their first place |
| Critic.ReviewDraft | src/benjamin/core/orchestration/critic.py:93-134 | the draft's review in all branches |
| Critic.AcceptedPlanIsSound | src/benjamin/core/orchestration/critic.py:16-176 | for a valid default zone, every event of an accepted plan has a known zone and ends after it starts, every draft has non-empty trimmed distinct recipients, every reminder has a message and lies ahead |
| Critic.ReviewIsIdempotent | src/benjamin/core/orchestration/critic.py:16-176 | reviewing an accepted plan again accepts it and changes nothing |
| Critic.SecondReviewDependsOnDefault | src/benjamin/core/orchestration/critic.py:61-70 | an accepted plan is accepted again exactly when the default is a zone, or blank, or no event of the plan has a missing or blank zone |
| Critic.OnlyNormalisedFieldsChange | src/benjamin/core/orchestration/critic.py:85-90 | a review leaves the step alone, or writes only the one field its skill normalises, to the value it reports |
| Critic.EventTimesAreKept | src/benjamin/core/orchestration/critic.py:52-64 | filling in the default zone leaves the instants of the event what they were |
| Critic.EveryAddressIsKept | src/benjamin/core/orchestration/critic.py:104-112 | a draft keeps every address that is more than white space, and gains none |
| Critic.ReminderMovesOnlyWhenLate | src/benjamin/core/orchestration/critic.py:155-168 | a reminder ahead keeps its time; a late one moves to five minutes from now |
| HttpRetry.Attempt | src/benjamin/core/net/http.py:92-129 | the loop: at most retries + 1 requests, stops at the first outcome it does not repeat or the last one allowed, sleeps exactly the pauses between |
| HttpRetry.RequestJson | src/benjamin/core/net/http.py:79-129 | with arguments clamped and environment values not: the final fallback error is reached exactly when the environment asks for a negative number of retries |
| HttpRetry.StopIsUnique | src/benjamin/core/net/http.py:95-129 | the script determines where the loop stops |
| HttpRetry.OnlyOutcomesDecide | src/benjamin/core/net/http.py:95-129 | with a base of at least 1 it stops at the first outcome other than a timeout, a lost connection, 429 or 5xx, and answers with that outcome's own error or payload |
| HttpRetry.SleepIsBounded | src/benjamin/core/net/http.py:132-135 | n pauses add up to between base * (2^n - 1) and that plus n largest jitters |
| HttpRetry.CallSleepsAtMost | src/benjamin/core/net/http.py:132-135 | a call sleeps at most base * (2^r - 1) + r * max(1, base / 4) |
| HttpRetry.NegativeBaseRefusesToRetry | src/benjamin/core/net/http.py:90-106 | with a negative base only the first pause can be taken, and only when the base is -1 and the jitter 1 |

## Left out

- Ledger lock mode other than `file`: no lock is taken there, so nothing beyond the atomic model holds.
- `Ledger.OneWinnerPerEpisode`, `Guard.AtMostOnce`, `AtMostOnce.SideEffectsHappenAtMostOnce`, `AtMostOnce.ApprovalExecutesAtMostOnce`, `AtMostOnce.ProposalCreatedAtMostOnce`: the key is assumed not to be claimed while the cap has evicted it; with the cap lifted the assumption always holds (`AtMostOnce.UncappedRetains`), and the eviction lemmas show that it is needed otherwise.
- `LedgerLock.LockSerialises`: assumes that no waiter reaches its deadline, which the code allows; `LedgerLock.ExclusionHoldsIffNobodyGivesUp` shows that this is exactly what exclusion needs.
- `Authorisation.EveryWriteIsAuthorised`: the authorisation is that of the moments at which approve and the executor looked, not of the moment of the run; the code does not look again.
- `ApprovalService.DecidedIsFinal`: is about atomic calls only; `Finality` and `DecidedRuns` cover overlapping ones.
- `Finality.DecidedIsFinalExactlyWhenUnheld`, `DecidedRuns.NeverExecutedExactlyWhenNobodyLive`: for continuations that do not issue the id a second time, since fresh ids are random; a continuation may change every switch and evict every key.
- `Atomicity.ApproveAloneIsAtomic`: compares the files, and `Atomicity.ApproveAloneRunsTheSame` the skill runs; the HTTP response is compared only in the service object's own contracts.
- `EvaluationAlone.EvaluationAloneIsTheLoop`: compares approvals and ledger; what notifications say leaves no trace in the interleaved system.
- `RuleGuarantees.PreviewIsPrefixOfEvaluation`: a preview sees one policy, one safe mode, no ledger and no exception; so the comparison assumes an evaluation under one policy and safe mode, without ledger hits, with sendable notifications and registered write skills. The preview's `include_seen` mode is not modelled.
- `RuleGuarantees.LoopOutcome`, `RuleGuarantees.CooldownStartsExactlyWhen`: assume one policy and safe mode throughout, and that no refused key is within two records per action of its eviction, since otherwise the outcome also depends on which keys the loop's own records evict.
- `BreakerManager.RestartsAreInvisible`: one manager on one file under unchanged settings, restarting between wraps; several managers on one file are not coordinated by the code.
- `Doctor.StateDirectory.RunDoctor`: file sizes and the total of bytes are not modelled.
- `Critic.AcceptedPlanIsSound`, `Critic.ReviewIsIdempotent`: for a JSON object as payload and one clock reading per review; a payload of another JSON type raises in the code.
- `Critic.SecondReviewDependsOnDefault`: the zone database, the ISO parser and the printer are parameters, assumed to have trimmed non-empty zone names and to read back what they print.
- `HttpRetry.Attempt`: decoding the response body, which may raise on its own, and the shared client are not modelled.
- In the interleaved system each read-modify-write of the approvals file and each guarded ledger operation is one step; `create_pending` is one step too. That ledger operations may be taken as single steps is what `LedgerLock` proves.
- A ledger operation that fails with an I/O error is not modelled; in particular a report that raises after an approval was created.
- `Policy.PermissionsPolicy.CheckScopes`: the policy is a value, because its fields are set once, while it is built; likewise approval records, rules and plan steps are values that their store or array replaces, so aliasing between a caller's object and a stored one is not captured.
- Metadata that only marks carry for display (error texts and ids in rule marks), correlation ids, notes, trace events, audit episodes, policy snapshots on records, and logging.
- JSON and ISO parsing, validation, hashing in `src/benjamin/core/ledger/keys.py`, atomic rename, fsync and backup files: rows and keys are values and a file rewrite is one step.
- Case folding of rule texts, which are taken as already folded, and template rendering of notifications.
- Disabled and blocked scopes are sets, not sorted lists.
- The doctor running beside a live ledger, which the code does not coordinate; `Doctor` treats maintenance as atomic.
- `RuleSweep.Evaluator.RunRulesEvaluation`: a save that raises leaves the rule file as it was; a file that is cut off in the middle of being written is not modelled.
- Reading and filtering helpers that would only add easy members: searches and listings by correlation, `set_enabled`, TTL caches, task, semantic and episodic stores.
- FastAPI routes, UI, schedulers, and the internals of Google, LLM, Discord and HTTP clients.
- The older `benjamin/` tree, superseded by `src/benjamin`.
