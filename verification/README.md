# Verified model of MasterDNS

MasterDNS keeps DNS records pointed at healthy addresses and rotates cloud addresses that went
bad. This project models the parts of it that carry state from call to call and proves what they
keep, for every input, every interleaving and every run:

- **the Redis lease** of a DNS zone (`RedisLease`, `RedisHandOver`): clients, the server and one
  millisecond clock take turns in any order, and a command may execute at any instant after it was
  sent;
- **the cloud write limits** (`CloudLimitRules`, `CloudLimits`, `CloudLimitRetry`, `CloudLimitRuns`,
  `CloudLimitWindows`, `CloudLimitAdmission`): the tables as fields of a class, one transaction as
  one step, then bounds over whole runs and the exact condition of every answer;
- **the endpoint strategy** (`Strategy`, `StrategyBalance`, `StrategyFairness`,
  `StrategyFairRuns`, `StrategyFailover`, `StrategyHealthySet`, `StrategyPublished`): a pass over
  shared objects that change while it runs;
- **the journaled cloud runner** (`RotationJournal`, `RotationRunner`): a write-ahead journal, an
  adversarial adapter and a crash at every await;
- **the rotation decision chain**: votes become round decisions (`ProbeConsensus`), rounds become
  a health state (`HealthState`), evidence becomes the next action (`RotationMachine`), and the
  coordinator acts on it (`RotationCoordinator`, with `RotationBudget`, `RotationFence`,
  `RotationOrder`, `RotationEvidence`, `RotationObservation`, `RotationAnswers` and `RotationRuns`
  for what its runs keep, `RotationOutcomes` for what each event achieves, and
  `RotationLateReceipt` for a run that hides a step);
- **the rotation schedule** (`RotationSchedule`, `RotationScheduleRuns`,
  `RotationScheduleResume`): reconciliation with the incidents of a slot;
- two small pairs: **the gigabyte field** (`Gigabytes`) and **the two IPv6 readers and prefix
  tests** (`CidrMatch`, `IpText`, `IpAgreement`).

Code that changes state in place is a class or a method proved equal to a specification function;
the properties are lemmas about those functions. Where a promise is false of the code, the exact
condition is proved instead. The lease guard enforced at
`packages/automation/src/dns-zone-lock.ts:61` is weaker than mutual exclusion needs
(`RedisLease.MarginIsExact`). A cloud step that was sent is observed whatever becomes of the gate,
but a conflicting late receipt of an earlier step of its plan, and nothing else, hides it
(`RotationRuns.SentIsObserved`, `RotationLateReceipt.LateReceiptHides`). Round robin shares its
selections evenly exactly under the settings in which the cursor decides every selection, which
recovery to the original endpoint, repair and reordered priorities do not leave to it
(`StrategyFairRuns.FairExactly`).

Assumptions stated as hypotheses or built into the models:

- one clock for all parties, and timers that fire on time;
- ids that are database keys are distinct, and at most one incident of a slot is open, as its
  unique index says;
- a Redis key is gone once the clock is past its expiry;
- an obliging environment, in `RotationRunner.Run`, is one that stops crashing and shows every
  effect as applied; the other clauses of that method assume nothing of the environment.

`dafny verify dfyconfig.toml` checks the whole project.

## Model

| member | source | states |
|---|---|---|
| `RedisLease.DefaultsHaveMarginExactlyFrom1498` | packages/automation/src/dns-zone-lock.ts:55-63 | the built-in 120 s lease has the safety margin; of the leases given alone, the code accepts those from 1201 ms on, but their derived options have the margin only from 1498 ms on |
| `RedisLease.RedisKey.SetIfAbsent` | packages/automation/src/dns-zone-lock.ts:130 | `SET NX PX` on the key, in place: it succeeds exactly on an absent or expired key, and then stores the token with a full lease |
| `RedisLease.RedisKey.RefreshIfOwned` | packages/automation/src/dns-zone-lock.ts:8 | the refresh script prolongs a live key exactly for the token it stores and changes nothing otherwise |
| `RedisLease.RedisKey.ReleaseIfOwned` | packages/automation/src/dns-zone-lock.ts:9 | the release script succeeds exactly for the token of a live key, which is then gone at every time; otherwise nothing changes |
| `RedisLease.StepKeepsInvariant` | packages/automation/src/dns-zone-lock.ts:69-188 | every step of any client, of the server or of the clock keeps the timed invariant that ties a client's belief to the stored token and its expiry |
| `RedisLease.BelieverOutlivesKeyBriefly` | packages/automation/src/dns-zone-lock.ts:55-188 | under the enforced guard alone, a client that passes `assertOwned` still owns the key or has outlived it by less than one command timeout, and its belief is bounded by the instant its last confirmed command was sent |
| `RedisLease.BelieverIsStored` | packages/automation/src/dns-zone-lock.ts:55-188 | with the margin, whenever a client passes `assertOwned` the key stores its token |
| `RedisLease.MutualExclusion` | packages/automation/src/dns-zone-lock.ts:48-188 | for any number of clients and any interleaving, two clients with the margin never pass `assertOwned` at once |
| `RedisLease.OverlapRun` | packages/automation/src/dns-zone-lock.ts:61-63 | every accepted configuration without the margin has a run in which two clients pass at once |
| `RedisLease.MarginIsExact` | packages/automation/src/dns-zone-lock.ts:61-63 | ownership follows belief in every run of an accepted configuration if and only if refresh interval plus twice the command timeout fits in the lease |
| `RedisHandOver.ReleasedForGood` | packages/automation/src/dns-zone-lock.ts:9-203 | once the server answered a release with success, of a held lease or of one acquired too late, the client neither owns the key nor believes it does for the rest of every run |
| `RedisHandOver.GivesBack` | packages/automation/src/dns-zone-lock.ts:88-113 | from every reachable state, a holder whose action settles deletes its own key within the same millisecond when the server answers promptly, leaves any other key alone, and learns of a loss exactly if it knew of one, its last refresh was refused or the key is not its own |
| `RedisHandOver.HandsOver` | packages/automation/src/dns-zone-lock.ts:88-151 | in that same millisecond a waiter whose poll is due before its deadline gets the lease |
| `RedisHandOver.LateHandsOver` | packages/automation/src/dns-zone-lock.ts:138-203 | the key of an acquisition that came too late changes hands in the same way |
| `RedisHandOver.OnlyTimeoutsAreWatched` | packages/automation/src/dns-zone-lock.ts:138-146 | a set that timed out stays watched, one that was rejected does not |
| `RedisHandOver.LateSetIsUndone` | packages/automation/src/dns-zone-lock.ts:138-203 | a set that executes only after its caller's timeout leaves no key behind |
| `RedisHandOver.LossIsExact` | packages/automation/src/dns-zone-lock.ts:72-106 | a caller learns of a loss exactly when a refresh or its release is refused or a refresh goes unanswered; an unanswered release does not count |
| `RedisHandOver.WaitsUntilTheDeadline` | packages/automation/src/dns-zone-lock.ts:127-151 | a waiter never waits past its deadline, and before it is due again within one poll interval after every refusal |
| `RedisHandOver.CleanupIsBounded` | packages/automation/src/dns-zone-lock.ts:99-108 | a release is given up at the end of its cleanup timeout at the latest |
| `CloudLimitRules.RulesScale` | packages/contracts/src/cloud-rotation-limits.ts:34-50 | at every legal percentage a budget has positive capacity and refill, its shape does not depend on the percentage, and a higher percentage never shrinks it |
| `CloudLimitRules.RulesAreProportional` | packages/contracts/src/cloud-rotation-limits.ts:37-38 | a budget at a percentage is the whole part of that share of the official capacity, one write at least, and exactly that share of the official refill |
| `CloudLimitRules.RulesForActionAreSound` | packages/contracts/src/cloud-rotation-limits.ts:51-54 | every supported action has at least one budget, none twice, and exactly the static-IP family is charged to the two shared windows |
| `CloudLimits.CloudLimiter.Judge` | packages/db/src/cloud-rotation-limits.ts:89-104 | the checking loop finds the refusal with the latest retry time and the row every rule would write |
| `CloudLimits.CloudLimiter.ReserveWrite` | packages/db/src/cloud-rotation-limits.ts:55-113 | one admission changes the tables exactly as its specification says, on refusal, error and success |
| `CloudLimitAdmission.AdmissionIsExact` | packages/db/src/cloud-rotation-limits.ts:55-113 | a write is admitted exactly when its action is known, no idle-address release holds the region, no pause is running, a static-IP write agrees with its durable plan, and, with limits on, every budget has room; each refusal and error has its exact condition, and with the switch off no budget refuses |
| `CloudLimitAdmission.AdmissionIsExactInRuns` | packages/db/src/cloud-rotation-limits.ts:55-113 | the same in every state reachable from an untouched identity |
| `CloudLimits.CloudLimiter.RecordThrottle` | packages/db/src/cloud-rotation-limits.ts:115-128 | recording a throttle changes the cooldown row as specified and nothing else |
| `CloudLimits.ThrottlesEscalate` | packages/db/src/cloud-rotation-limits.ts:121-124 | throttles less than an hour apart pause writes for 60 s, 120 s and so on up to an hour, and none brings the end of a pause forward |
| `CloudLimitAdmission.PauseIsTheLatestAsked` | packages/db/src/cloud-rotation-limits.ts:121-124 | the recorded pause ends at the latest end any throttle asked for, by its place in the burst or by the vendor's hint up to a day, and a quiet hour ends the burst |
| `CloudLimitAdmission.PauseEndsExactly` | packages/db/src/cloud-rotation-limits.ts:61-62 | in any run, until the next throttle, the pause a throttle recorded refuses known writes exactly until its end |
| `CloudLimitAdmission.PauseRefusesExactly` | packages/db/src/cloud-rotation-limits.ts:61-62 | a write refused for a pause is refused for it at every moment before the named time and at none from it on |
| `CloudLimitRuns.PausedUntilTheEnd` | packages/db/src/cloud-rotation-limits.ts:61-62 | once a throttle is recorded, no write of any run is admitted or changes anything before the end of its pause, a minute at least, whatever later throttles and policies do |
| `CloudLimits.CloudLimiter.SetPolicyRow` | packages/db/src/cloud-rotation-limits.ts:152-168 | a policy change first settles every token bucket at the old rate, then changes the row |
| `CloudLimitAdmission.PolicyTakesEffect` | packages/db/src/cloud-rotation-limits.ts:152-168 | a policy change sets one account's share and the switch, the smallest share rules, and once switched off only pauses, plans and cleanups can refuse |
| `CloudLimitRetry.RetryTimeIsExact` | packages/db/src/cloud-rotation-limits.ts:46-52 | on the rows the limiter writes, a refusing rule refuses at every millisecond before its retry time and at none from it on, nothing else happening; when reservations alone exceed it, it is polled after 60 s and stays shut |
| `CloudLimitRetry.ToleranceDecidesExactly` | packages/db/src/cloud-rotation-limits.ts:99 | on those rows the 1e-9 tolerance finds exactly the true overshoots, even when the value it compares is off by anything less than itself |
| `CloudLimitRetry.WorstIsLatest` | packages/db/src/cloud-rotation-limits.ts:89-105 | a write is refused iff some rule refuses, and the answer carries a refusing rule with the latest of their times |
| `CloudLimitRetry.ReportedTimeAdmits` | packages/db/src/cloud-rotation-limits.ts:90-105 | each refusing rule that time alone can open refuses exactly until its own time, whatever the others do, and the write passes exactly from the reported time on when no refusing rule is held shut by reservations alone |
| `CloudLimitRuns.RunKeepsGrid` | packages/db/src/cloud-rotation-limits.ts:40-45 | in every reachable state every debt is a whole number of hundred-thousandths, what one millisecond drains at one percent, through any policy changes |
| `CloudLimitRuns.RefusalsNameTheMoment` | packages/db/src/cloud-rotation-limits.ts:89-105 | in every state reachable from an untouched identity, a write refused for its budgets and tried again later without other traffic is refused at every millisecond before the named time and admitted at every one from it on, unless reservations hold it shut |
| `CloudLimitRuns.EventChangesDebt` | packages/db/src/cloud-rotation-limits.ts:40-45 | no event but a charged admission changes the debt of a bucket, and that one adds exactly one write, whatever the policy does |
| `CloudLimitRuns.TokenBucketBound` | packages/db/src/cloud-rotation-limits.ts:89-109 | over every interval that ends in an admission under enabled limits, the writes charged to a bucket number at most its capacity then plus the refill accumulated in the interval, through any policy changes |
| `CloudLimitWindows.StepKeepsWindow` | packages/db/src/cloud-rotation-limits.ts:64-112 | every event keeps the row equal to the history of its window and the window's load within capacity |
| `CloudLimitWindows.WindowConservation` | packages/db/src/cloud-rotation-limits.ts:64-112 | in every reachable state, while limits stay enabled and the percentage is not lowered, the writes in a window, releases aside, plus the live unconsumed reservations never exceed its capacity |
| `CloudLimitWindows.ConsumingKeepsTheSum` | packages/db/src/cloud-rotation-limits.ts:95-111 | dispatching a reserved step moves one unit from the reservations to the window |
| `CloudLimitRuns.RefusalsLeaveNoTrace` | packages/db/src/cloud-rotation-limits.ts:80-105 | a run leaves all tables as it would without the writes that were not admitted, however many and whenever they came |
| `CloudLimitWindows.FirstAdmissionReservesPlan` | packages/db/src/cloud-rotation-limits.ts:69-88 | the first admitted static-IP step reserves every later first dispatch of its plan |
| `CloudLimitWindows.ReservedPlanNeverStalls` | packages/db/src/cloud-rotation-limits.ts:67-111 | after that, no window refuses the first dispatch of a remaining step while the attempt stays live, whatever other traffic, percentage changes or switches occur |
| `Strategy.EvaluateStrategy` | packages/automation/src/strategy.ts:9-75 | the pass over shared endpoint objects that change while it runs computes the specified evaluation |
| `Strategy.TakeTurn` | packages/automation/src/strategy.ts:21-67 | one binding's turn over the shared objects: candidates, release of the current load, choice, restore or assignment, cursor and decision |
| `StrategyFailover.NobodyIsStranded` | packages/automation/src/strategy.ts:21-67 | after an evaluation every binding points at an enabled endpoint of its family that is healthy or degraded in its own view, or no such endpoint exists, and then it is reported and flagged |
| `StrategyFailover.FailureMovesExactly` | packages/automation/src/strategy.ts:31-67 | on a failure a binding gets a decision exactly when none of its current endpoints serves it |
| `StrategyFailover.RecoveryReturnsExactly` | packages/automation/src/strategy.ts:25-67 | on a recovery a binding returns to its original endpoint exactly when the mode is automatic or delayed, that endpoint serves it and it is elsewhere |
| `StrategyFailover.RepairStaysExactly` | packages/automation/src/strategy.ts:36-67 | on a repair every binding is decided anew and keeps the first of its current endpoints that serves it, if any |
| `StrategyFailover.OrderedTakesTheFirst` | packages/automation/src/strategy.ts:122-131 | in ordered mode a moved binding gets the first serving endpoint by priority and id |
| `StrategyFailover.CursorMoves` | packages/automation/src/strategy.ts:43-58 | a selection moves only the cursor of its own family and candidate set, and only in round robin |
| `StrategyPublished.HealthySetDecidesExactly` | packages/automation/src/strategy.ts:77-98 | a binding is told to publish exactly the endpoints that serve it, or on a conservative recovery its own that do, unless it does already and nothing forces a decision; with the exact reason |
| `Strategy.RankedIsPermutation` | packages/automation/src/strategy.ts:130 | ranking keeps exactly the candidates, each as often as it occurs, and puts every one before all that follow it in priority and id |
| `StrategyBalance.CountsAreConserved` | packages/automation/src/strategy.ts:34-60 | for every trigger and mode the final loads equal a recount after applying the decisions |
| `StrategyBalance.RebalanceIsLevel` | packages/automation/src/strategy.ts:122-134 | after a least-assigned rebalance over one shared candidate set the loads of any two candidates differ by at most one |
| `StrategyFairness.AfterCursorFollows` | packages/automation/src/strategy.ts:136-137 | the round-robin choice is the cyclic successor of the cursor in the ranking, or its first member |
| `StrategyFairRuns.RoundRobinIsFair` | packages/automation/src/strategy.ts:39-58 | in any run of evaluations under settings in which the cursor decides, any k consecutive selections that share a cursor key with n candidates choose every candidate floor(k/n) or ceil(k/n) times |
| `StrategyFairRuns.FairExactly` | packages/automation/src/strategy.ts:25-58 | under a set of triggers, recovery modes and priority orders every run of evaluations with distinct ids and counted loads is fair if and only if none of them bypasses the cursor by recovery or repair and all order the endpoints in the same cycles |
| `StrategyFairRuns.BypassIsUnfair` | packages/automation/src/strategy.ts:25-43 | where recovery or repair bypasses the cursor, one evaluation in which two distinct bindings return to the same original endpoint is unfair |
| `StrategyFairRuns.ReorderIsUnfair` | packages/automation/src/strategy.ts:52-58 | where two priority orders run through three endpoints in different cycles, three bindings selected under one and then the other are shared unfairly |
| `StrategyHealthySet.DesiredIsHealthy` | packages/automation/src/strategy.ts:77-86 | the desired set is every healthy endpoint, or on a conservative recovery the healthy current ones when there are any |
| `StrategyHealthySet.AppliedDecisionIsStable` | packages/automation/src/strategy.ts:87-98 | once its decision is applied, a binding gets no further decision except the report that nothing is healthy |
| `StrategyHealthySet.SecondEvaluationOnlyReports` | packages/automation/src/strategy.ts:77-101 | evaluating again after applying everything only repeats the missing-endpoint reports |
| `RotationJournal.ValidateJournal` | packages/cloud-providers/src/aws-e2e-harness.ts:354-407 | the store's one-scan check accepts exactly the journals with an applied prefix, at most one active step, a planned suffix, a matching phase and receipts carried forward |
| `RotationJournal.JournalIsInScope` | packages/cloud-providers/src/aws-e2e-harness.ts:354-407 | a journal that passes is about the account, region, instance, interface and address of its scope |
| `RotationJournal.NativeNamesMean` | packages/cloud-providers/src/aws-e2e-harness.ts:354-407 | the Lightsail names agree exactly when they name the first holder of the configured IPv4 address and its allocation |
| `RotationJournal.MissingAddressMismatches` | packages/cloud-providers/src/aws-e2e-harness.ts:354-407 | a configured Lightsail address that is not held by the interface agrees with no names |
| `RotationJournal.NewJournalIsSound` | packages/cloud-providers/src/aws-e2e-harness.ts:251-268 | the journal made from a fresh plan satisfies everything the check asks for except the native Lightsail names |
| `RotationJournal.DispatchIsSound` | packages/cloud-providers/src/aws-e2e-harness.ts:286-288 | marking the planned step dispatched keeps that and only extends the journal |
| `RotationJournal.ReceiptIsSound` | packages/cloud-providers/src/aws-e2e-harness.ts:289-293 | recording the receipt keeps that and only extends the journal |
| `RotationJournal.AppliedIsSound` | packages/cloud-providers/src/aws-e2e-harness.ts:298-305 | recording an applied step, with its receipt carried to the later steps, keeps that and moves the frontier by one |
| `RotationJournal.StuckIsSound` | packages/cloud-providers/src/aws-e2e-harness.ts:308-311 | recording a pending or doubtful observation keeps that |
| `RotationRunner.World.Save` | packages/cloud-providers/src/aws-e2e-harness.ts:129-144 | a save refuses a journal that fails `validateJournal` before anything is written; otherwise it replaces the file atomically, with a crash on either side, and every saved journal stays valid and continues its predecessor |
| `RotationRunner.DispatchStep` | packages/cloud-providers/src/aws-e2e-harness.ts:281-294 | the dispatched mark is on disk before the single execute call, and the receipt after it |
| `RotationRunner.SettleStep` | packages/cloud-providers/src/aws-e2e-harness.ts:296-312 | the step is advanced only when its polling ended with the answer applied, which is then on disk with the receipt under its details; pending and doubtful answers are saved as such and end the run |
| `RotationRunner.RecordVerdict` | packages/cloud-providers/src/aws-e2e-harness.ts:296-312 | each observation leads to its own journal: applied moves on, pending pauses, anything else asks for review, and no other entry changes |
| `RotationRunner.ObserveUntilSettled` | packages/cloud-providers/src/aws-e2e-harness.ts:318-330 | polling returns the first answer that is settled or past the deadline, and nothing only after a failed answer or a crash came before any such |
| `RotationRunner.Run` | packages/cloud-providers/src/aws-e2e-harness.ts:236-316 | a run cut short at any await leaves a journal that continues the old one; a journal that fails the check is refused untouched, and so is one made for another slot; nothing is saved or executed before the slot was seen in scope; without permission to write it only reports the actions planned for what it saw; completion means the last applied step was read back once more as applied; in an obliging environment it completes whatever journal earlier crashes left, or a new one whose native names match the inspection |
| `RotationRunner.RunAgainAndAgain` | packages/cloud-providers/src/aws-e2e-harness.ts:222-316 | after any number of runs over one journal, however each ended, every saved journal is valid and every execution was in order |
| `RotationRunner.RunsFromNothing` | packages/cloud-providers/src/aws-e2e-harness.ts:222-316 | any number of runs from no journal, cut short at any await: every saved journal passes `validateJournal` and keeps what was applied, each step is executed at most once over all runs, in plan order and in scope, after every earlier one was answered applied, and every recorded observation and receipt was really given |
| `RotationRunner.CandidateIsCarried` | packages/cloud-providers/src/aws-e2e-harness.ts:332-335 | the steps after an applied allocation carry exactly its receipt |
| `ProbeConsensus.DecisionIsFinal` | packages/automation/src/probe-consensus.ts:9-30 | a known round decision is unchanged by any completion of missing or unavailable votes |
| `ProbeConsensus.PolicyIsAcceptedExactly` | packages/automation/src/probe-consensus.ts:56-69 | a policy is accepted exactly when its members are a set and the bounds its mode looks at lie within it |
| `ProbeConsensus.CompleteRoundDecides` | packages/automation/src/probe-consensus.ts:20-29 | a round in which everyone gave a valid vote is never unknown |
| `ProbeConsensus.DecidesAsSoonAsForced` | packages/automation/src/probe-consensus.ts:16-29 | a round has a known decision if and only if enough members voted and every complete continuation would decide the same |
| `ProbeConsensus.CompleteRoundMeans` | packages/automation/src/probe-consensus.ts:19-29 | a round in which everyone voted fails exactly when any, all, more than half, the given number or the specified member voted failure, as its mode says, and succeeds otherwise |
| `ProbeConsensus.OrderIsIrrelevant` | packages/automation/src/probe-consensus.ts:56-69 | permuting the members changes neither the decision nor the error |
| `ProbeConsensus.TotalIsCardinality` | packages/automation/src/probe-consensus.ts:25-26 | a tally is the number of distinct members that cast the vote |
| `HealthState.HealthIsItsHistory` | packages/automation/src/health-state.ts:5-29 | folding rounds from a fresh record gives exactly the counters and the state that the history of decisions reads as: down iff the latest completed threshold run failed, and so on |
| `HealthState.ReadingIsUnique` | packages/automation/src/health-state.ts:5-29 | a history reads as one state only |
| `HealthState.RedeliveryLeavesNoTrace` | packages/automation/src/probe-consensus.ts:32-45 | a round delivered again before the next one changes nothing, so any deliveries read as the rounds delivered once |
| `RotationMachine.DispatchExactly` | packages/automation/src/rotation-machine.ts:111-127 | a cloud step is ordered exactly when the gate is open, it is the first not applied, it may be sent, and its attempt is charged or affordable |
| `RotationMachine.PublishExactly` | packages/automation/src/rotation-machine.ts:170-184 | a publication is ordered exactly on fresh evidence of success about this candidate and configuration, at its threshold, with the gate open |
| `RotationMachine.ObserveExactly` | packages/automation/src/rotation-machine.ts:89-102 | the first step not applied is observed exactly when it was sent and is unsettled, whatever the gate says |
| `RotationMachine.NothingOpenNothingObserved` | packages/automation/src/rotation-machine.ts:89-105 | without an open step only a running publication is observed |
| `RotationMachine.ProbeExactly` | packages/automation/src/rotation-machine.ts:170-195 | a probe is ordered exactly when the candidate is shown neither good nor bad and its turn has come; the window decides nothing |
| `RotationMachine.CompleteExactly` | packages/automation/src/rotation-machine.ts:197-208 | an incident is over exactly in its last phase, or when the gate is open, the current address is published and nothing is left to clean up |
| `RotationMachine.WaitEnds` | packages/automation/src/rotation-machine.ts:158-214 | a wait that names a time names a later one and is over then |
| `RotationMachine.PauseSaysWhy` | packages/automation/src/rotation-machine.ts:71-214 | each pause names a fact of the snapshot |
| `RotationBudget.StepKeepsBudget` | apps/worker/src/rotation/rotation-store.ts:147-151 | every event keeps each segment's counter equal to its charged attempts and within its limit |
| `RotationFence.StepKeepsFence` | apps/worker/src/rotation/rotation-lock.ts:5-12 | every event keeps: no two sendings of an incident bear the same lease revision, and the present claim bears none until it is spent |
| `RotationFence.FencedAnswersLast` | apps/worker/src/rotation/rotation-store.ts:161-169 | an answer passes the dispatch fence if and only if it answers the last sending of its step |
| `RotationOrder.StepKeepsOrder` | apps/worker/src/rotation/rotation-store.ts:128-227 | every event keeps: an untouched or conclusively failed step has word of no effect for each of its sendings, any other was sent, and steps were sent in order |
| `RotationEvidence.StepKeepsEvidence` | apps/worker/src/rotation/rotation-store.ts:106-258 | every event keeps: each write was allowed on its facts, the failure counter never exceeds the trailing run of proven failures, and each publication and cleanup traces back to the entries that justify it |
| `RotationEvidence.CloseKeepsCounter` | apps/worker/src/probes/probe-health.service.ts:47-49 | closing a round moves the failure counter only as far as the round was decided |
| `RotationObservation.OutstandingStays` | packages/automation/src/rotation-machine.ts:97-102 | until it is answered or the incident is terminated, a sent step stays outstanding through every event, and only a conflicting receipt of an earlier step of its plan comes to obstruct it |
| `RotationLateReceipt.LateReceiptHides` | apps/worker/src/rotation/rotation-store.ts:161-175 | a run in which the late receipt of an applied step names another resource, and the step in flight behind it goes from observed to hidden with the gate open |
| `RotationRuns.RunKeepsInvariant` | apps/worker/src/rotation/rotation-store.ts:106-308 | budget, fences, order, evidence and observation hold in every state of every run, whatever the environment does |
| `RotationRuns.BudgetIsNeverExceeded` | packages/automation/src/rotation-machine.ts:154-164 | in any run the attempts charged to a segment never exceed its limit |
| `RotationRuns.StepsTakeEffectInOrder` | packages/automation/src/rotation-machine.ts:95-123 | a step is sent only after every earlier step of its plan was sent and answered applied, without conflict and under its own fence |
| `RotationRuns.InstallationIsEarned` | apps/worker/src/rotation/rotation-store.ts:186-199 | a candidate is installed only after every step of its plan was answered applied in that way |
| `RotationAnswers.StatusWasTold` | apps/worker/src/rotation/rotation-store.ts:161-227 | whatever status a step has in a run, the event that brings it came before, and an answer came from the cloud about that very step under its fence |
| `RotationAnswers.AnswerIsRecorded` | apps/worker/src/rotation/rotation-store.ts:161-227 | an answer within its fence leaves exactly the status it reports, a conflict or an earlier doubt leaves a doubt, and an applied step stays applied |
| `RotationOutcomes.RecoverExactly` | apps/worker/src/rotation/rotation-store.ts:44-49 | recovery prepares again exactly the steps that had no effect and those refused for passing reasons |
| `RotationOutcomes.ResumeOpensAnew` | packages/db/src/rotation-incidents.ts:102-131 | a resume takes the present revisions, opens a fresh segment, keeps a charged plan under the segment that paid and drops any other |
| `RotationOutcomes.ResumeGetsGoing` | packages/db/src/rotation-incidents.ts:102-131 | in any run, with authorization and lease in order the resumed rotation goes on at the first step not applied, or with a new attempt in the new segment |
| `RotationOutcomes.InstalledStartsFresh` | apps/worker/src/rotation/rotation-store.ts:284-306 | an installed candidate has a version of its own and no evidence and is probed next; earlier measurements neither publish nor discard it |
| `RotationOutcomes.RoundBecomesEvidence` | apps/worker/src/probes/probe-health.service.ts:47-49 | a closed round becomes the evidence with its decision, time and run length, and an undecided one stops counting |
| `RotationOutcomes.ExpiryForgets` | apps/worker/src/probes/probe-scheduler.service.ts:52-54 | expired evidence loses its decision and both run lengths |
| `RotationOutcomes.NothingWithoutEvidence` | packages/automation/src/rotation-machine.ts:178-195 | without evidence that counts nothing is published or given up |
| `RotationOutcomes.PublicationIsProven` | apps/worker/src/rotation/rotation-store.ts:229-236 | an address is published only when the health row of the slot shows it good, at its version, under its configuration, at its threshold, on evidence that still counts |
| `RotationOutcomes.DiscardIsShown` | packages/automation/src/rotation-machine.ts:186-189 | a candidate is given up only when the health row shows it bad in the same way |
| `RotationOutcomes.LandingDecides` | packages/automation/src/rotation-machine.ts:130-214 | a failed publication pauses the incident; one that landed completes it or waits for agreement to the cleanup |
| `RotationOutcomes.CleanupHadConsent` | packages/automation/src/rotation-machine.ts:209-214 | in any run nothing is cleaned up before somebody agreed to it for that version with the ownership verified |
| `RotationOutcomes.ExhaustionLatches` | apps/worker/src/rotation/rotation-store.ts:277 | a segment found exhausted stays so in every later state |
| `RotationOutcomes.TerminationIsFinal` | packages/db/src/rotation-termination.ts:6-47 | after a termination nothing is started, ordered or sent in any run, and no step is left open |
| `RotationOutcomes.FinishIsFinal` | packages/automation/src/rotation-machine.ts:90 | a finished incident stays finished and orders nothing else |
| `RotationRuns.NoBlindResend` | apps/worker/src/rotation/rotation-store.ts:140-227 | a step is sent again only after each earlier sending, by its own fence, got positive word of no effect before the next; never while in flight, pending, ambiguous or abandoned |
| `RotationRuns.OutstandingIsObserved` | packages/automation/src/rotation-machine.ts:97-102 | in every state of every run that is not terminated, an unsettled step keeps the incident in the cloud phase and is observed next if and only if all earlier steps of its plan are applied, whatever the gate says |
| `RotationRuns.SentIsObserved` | packages/automation/src/rotation-machine.ts:97-102 | from its sending on a step is outstanding and observed in every state until it is answered or the incident is terminated, unless an earlier step got a conflicting receipt in between |
| `RotationRuns.WritesHadTheGateOpen` | packages/automation/src/rotation-machine.ts:139-152 | every attempt, dispatch, publication and cleanup in a run was ordered with the whole gate open |
| `RotationRuns.CleanupFollowsPublication` | packages/automation/src/rotation-machine.ts:197-215 | a cleanup follows a publication of the current candidate's version that was ordered, landed and aged by the grace period |
| `RotationRuns.DiscardIsProven` | packages/automation/src/rotation-machine.ts:170-195 | a candidate is given up only when the last failureThreshold rounds applied to the health row, all of its version and probe configuration, were decided failures; superseded rounds reach no health row and do not count |
| `RotationRuns.FailureIsVoted` | packages/automation/src/probe-consensus.ts:20-29 | such a round had the required number of distinct failure votes, or the specified member's, and enough valid votes |
| `RotationSchedule.Store.Reconcile` | packages/db/src/rotation-schedules.ts:119-179 | one pass follows the linked, else the open, else the latest completed incident and changes only the schedule row, as specified |
| `RotationSchedule.Store.UpdateConfiguration` | packages/db/src/rotation-schedules.ts:22-61 | a configuration update changes the row exactly as specified, or not at all on a revision conflict or unchanged settings |
| `RotationSchedule.Store.Resume` | packages/db/src/rotation-schedules.ts:63-88 | a resume consumes the linked or latest observation and lifts the pause, or changes nothing in its four refusals |
| `RotationSchedule.Store.CreateScheduled` | packages/db/src/rotation-incidents.ts:33-46 | a due schedule adopts or inserts one incident and links it, or changes nothing in any of its refusals, checked in order |
| `RotationSchedule.Store.LatestCompletion` | packages/db/src/rotation-schedules.ts:98-110 | the latest completion by completion time, creation time and id |
| `RotationScheduleRuns.ReconcileConverges` | packages/db/src/rotation-schedules.ts:119-179 | with the incidents unchanged at most two passes change the schedule; every later one is a no-op |
| `RotationScheduleRuns.TwoPassesMayBeNeeded` | packages/db/src/rotation-schedules.ts:119-179 | the bound of two is reached |
| `RotationScheduleRuns.UpdateConsumesHistory` | packages/db/src/rotation-schedules.ts:37-60 | a changed configuration takes past completions as its baseline: with nothing linked and nothing open no pass acts on them |
| `RotationScheduleRuns.ResumedPauseReturnsExactly` | packages/db/src/rotation-schedules.ts:63-88 | after a resume, passes over the same incidents pause again if and only if nothing is linked and another open incident has stopped, never for the observation consumed |
| `RotationScheduleResume.StepKeepsConsumed` | packages/db/src/rotation-schedules.ts:22-179 | every update, pass, admission, resume or change of other incidents keeps the consumed observation consumed: linked in the handled version while open, else handled or overtaken by a later completion |
| `RotationScheduleResume.ConsumedNeverPauses` | packages/db/src/rotation-schedules.ts:63-88 | after a resume, in any such run, no pass pauses the schedule for the incident the resume consumed while its row keeps that version |
| `RotationScheduleRuns.PausesLatch` | packages/db/src/rotation-schedules.ts:22-61 | a paused schedule stays paused for the same reason under any updates, passes and incident changes and starts nothing until resumed |
| `RotationScheduleRuns.PauseEndsByResume` | packages/db/src/rotation-schedules.ts:63-70 | over any run a pause lasts exactly until the first resume that names the revision then current of a schedule then enabled |
| `RotationScheduleRuns.AdmissionKeepsTable` | packages/db/src/rotation-incidents.ts:33-46 | admission never opens a second incident beside an open one, and links the one it adopts |
| `RotationScheduleRuns.AdmittedExactly` | packages/db/src/rotation-incidents.ts:33-64 | a due schedule opens exactly one incident for its due time, or takes the one open or already made for it, and is refused in every other case with the first reason that applies |
| `RotationScheduleRuns.NoDueTimeTwice` | packages/db/src/rotation-incidents.ts:54-64 | no due time of a revision is ever answered by two incidents |
| `RotationScheduleRuns.CompletionSetsTheNextRun` | packages/db/src/rotation-schedules.ts:162-171 | a finished rotation makes the next one due exactly one interval after its completion, and none while paused or switched off |
| `RotationScheduleRuns.SettingsSetTheNextRun` | packages/db/src/rotation-schedules.ts:37-60 | changed settings count a fresh interval and one revision, and release the linked incident exactly when it completed |
| `RotationScheduleRuns.ResumeSetsTheNextRun` | packages/db/src/rotation-schedules.ts:75-86 | a resume counts a fresh interval and one revision and lifts the pause |
| `RotationScheduleRuns.HaltClearsTheNextRun` | packages/db/src/rotation-schedules.ts:143-161 | a halted or terminated rotation leaves nothing due and pauses the schedule for the first reason known |
| `RotationScheduleRuns.RunningIsLinked` | packages/db/src/rotation-schedules.ts:173-178 | a running rotation the schedule does not know is linked, and a known one changes nothing |
| `Gigabytes.ParsesExactly` | apps/web/src/lib/cloud-lifecycle.ts:33-44 | a text is accepted as b bytes if and only if it is well formed, b is positive and safe, and b is its exact value times 10^9 |
| `Gigabytes.RoundTrip` | apps/web/src/lib/cloud-lifecycle.ts:33-56 | parsing the printed form of any 1 <= b <= 2^53-1 gives b back |
| `Gigabytes.FloorSurvivesRounding` | apps/web/src/lib/cloud-lifecycle.ts:53 | with the quotient rounded to the nearest double of 53 bits, its floor is the exact one for every safe byte count |
| `CidrMatch.CidrContains` | packages/contracts/src/probes.ts:140-155 | the byte-and-mask loop decides exactly whether both addresses agree after shifting out everything beyond the prefix |
| `CidrMatch.MaskIsShift` | packages/contracts/src/probes.ts:153-154 | comparing under the mask is comparing the remaining high bits |
| `IpAgreement.ContractsReaderIsRight` | packages/contracts/src/probes.ts:157-178 | `ipBytes` reads every well-formed IPv6 text as the sixteen bytes of the number it denotes |
| `IpAgreement.CheckersReaderIsRight` | packages/checkers/src/network-policy.ts:42-60 | `normalizeIpv6` reads every well-formed IPv6 text as the number it denotes |
| `IpAgreement.ReadersAgree` | packages/contracts/src/probes.ts:157-178 | both readers find the same 128-bit number in every well-formed text, gaps and dotted tails included |
| `IpAgreement.ContainsText` | packages/contracts/src/probes.ts:140-155 | an address text is inside a network exactly when both texts have a number of one family and the numbers agree on the prefix |
| `IpAgreement.PrefixTestsAgree` | packages/checkers/src/network-policy.ts:101-104 | on well-formed texts the byte-and-mask test equals `hasIpv6Prefix` for every prefix length |

## Left out

- The acquire and renew loops of the lease are program-counter states of a client, not loops, because other clients act between any two of their awaits.
- Late timers, drifting clocks and Redis failover: the lease results need punctual timers and one server.
- `withRedisLease` rethrowing the protected action's own error, and the `onCleanupError` callback.
- Floating point in the write limits: capacities and debts are exact rationals, while the code scales with doubles (50 * 0.58 gives 28 where the exact floor is 29); the 1e-9 tolerance is kept as a named constant, and `CloudLimitRetry.ToleranceDecidesExactly` bounds the error of a debt it absorbs.
- SQL text, row locks and lock order: one transaction is one step on tables held as maps or sequences.
- Cloud accounts that join or leave an identity between two policy changes; the settling rule covers `setCloudRotationLimitPolicy` only.
- `getCloudRotationLimitStatus` and `wakeCloudRotationLimitWaits`: a read-only report and a wake-up.
- Whether an idle-address release holds the region is an input of the admission.
- The hash behind "random" selection is an uninterpreted position in the ranking; `localeCompare` is a strict total order on ids.
- The choice between `evaluateStrategy`'s pass and the healthy-set evaluation is made by the caller of the two models.
- Deep JSON equality is datatype equality, so a field that is absent and one that is undefined are the same; the planner is a deterministic function; file and lock-file handling is an atomic save and an exclusive run.
- The shape checks of `validateJournal` on untyped JSON are the datatypes, and so are the formats of native Lightsail names.
- The narrower inspection scope that a Lightsail run derives from its journal: an inspection it makes fail is a run that ends there.
- Vote thresholds and health thresholds that are not integers are refused by the code and not representable here.
- Non-finite clocks and unsafe integers in a rotation snapshot: times and counters are integers, so those guards never fire.
- Manual incidents publish without probe evidence and are not part of the coordinator model; neither is the shortcut that publishes or completes when the old address recovers before a charge.
- The coordinator's overrides that only wait or pause instead of acting are covered by not acting: an event that is allowed may always be left out of a run.
- The cleanup service's own eligibility checks, and retries that prepare a cleanup step again; the snapshot builder of the worker always reports cleanup as failed, so the cleanup orders of the decision function are modelled as that function promises them.
- Abandoning steps is modelled with the incident's termination, after which nothing is ordered.
- A segment's limit is fixed when it is opened.
- Publication authorization checks in the publication service; its moves from pending to in flight to applied or failed are events of the environment.
- Superseded probe rounds change nothing but their own row and are no events of the coordinator.
- Refusals that leave a step in doubt, and answers stored only as observations, change no step status and are no events either.
- ConsumedNeverPauses: takes as hypotheses on the incidents what their own transactions keep: rows stay, completions are recorded in the order in which they happen, and scheduled incidents answer to a revision the schedule has had.
- Incident `updatedAt` is an abstract version, and uuid order is the order of naturals.
- Number conversions that accept more than plain digits in a dotted tail ("0x1f", "1e2", blanks): such text is rejected or read as zero here, and no result is about it.
- Splitting "network/prefix" text, and the lists of forbidden networks: constants and single guards.
- React pages, HTTP controllers, wire schemas, provider SDK calls, credentials and environment loading.
