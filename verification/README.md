# Verified model of the governance engine

This project models the ledger-backed governance engine in Dafny and proves properties of the model. It
covers the lifecycle of a case and its concurrent transitions, the append-only ledger with its
supersession graph and canonical hash pre-image, verification, decision, execution and disbursement as
one state machine, and the self-contained algorithms: routing, cursor paging and read positions, the
fraud audit, the follow-up timeline, the consensus evaluator and the offline queue.

Verify everything with `dafny verify dfyconfig.toml`.

## How the model is laid out

| file | contents |
|---|---|
| `Common.dfy` | options, outcomes, filters, finite sets |
| `CaseLifecycle.dfy` | states, edge table, event map, paths |
| `LifecycleReplay.dfy` | replay of ledger events against the stored state |
| `LifecycleProtocol.dfy` | the transition transaction, statement by statement, for any number of processes |
| `Reconciliation.dfy` | repair of one case and of a tenant |
| `Ledger.dfy` | authority levels, commit pipeline, supersession graph |
| `JsonText.dfy`, `CanonicalJson.dfy`, `Preimage.dfy` | string literals and key order, the canonical printer with a parser that undoes it, the hashed record |
| `GovernanceStore.dfy` | one shared store; for each service, when it throws and what it leaves |
| `GovernanceDb.dfy` | the services as methods, statement by statement, with rollback |
| `GovernanceAnswers.dfy` | when each service accepts a call and what it leaves, told on rows and ledger alone |
| `GovernanceRuns.dfy`, `GovernanceGates.dfy` | what every run of all services keeps |
| `GovernanceRepairs.dfy` | the same with lifecycle reconciliation among the calls |
| `GovernanceDrift.dfy` | replay against the stored state over those runs |
| `ExecutionProgress.dfy` | milestones, weights, percentages |
| `Consensus.dfy` | evaluator, explanation, and their agreement with voting |
| `Routing.dfy` | routing engine, routing decisions and their ledger commits |
| `Messages.dfy` | paging, read positions, unread counts, creation |
| `ReadPositionRace.dfy` | overlapping updates of one read position |
| `IntegrityAudit.dfy` | incremental audit state against the full history of calls |
| `Timeline.dfy` | windows, follow-up matching, gaps, order, counts |
| `OfflineQueue.dfy` | queue and overlapping sync ticks |

A thrown error is a `Failure` (or a `Some(error)`), and the order of the checks is the order of the
source. A service that runs in a transaction is a method that restores a snapshot when anything throws.
Its contract names the condition under which it throws and the store it leaves otherwise, and the lemmas
about runs are stated over these same functions. Ids are naturals or table positions, times are integers
in milliseconds.

## Where the code differs from its own documentation

The model follows the code in each case, and the lemma named states what then holds.

- HUMAN_REVIEW, REJECTED and COMPLETED are not replayed to themselves, and no service looks at the lifecycle
  before it records that work was started, progressed or completed. The exact condition for drift is
  `LifecycleReplay.DriftIff`, and `GovernanceDrift.DriftOverRuns` over runs: those three states always drift,
  EXECUTING does not as long as nothing else is recorded about a case in it that replay listens to
  (`GovernanceDrift.ExecutingNeverDrifts`), and every other state can (`GovernanceDrift.EveryOtherStateCanDrift`).
- A repair sets a lifecycle without asking for a quorum. It can take a verified case back, and with that undo
  "one consensus, for ever" (`GovernanceRepairs.LeavesVerifiedIff`, `GovernanceRepairs.RepairReopensConsensus`);
  it cannot make an unbacked payout (`GovernanceRepairs.NoPayoutWithoutQuorum`).
- `startExecution` records EXECUTION_STARTED before the case is EXECUTING, so replay runs ahead of the
  stored state until the next transition (`LifecycleReplay.StartedBeforeExecutingDrifts`).
- Rule 2 of the authority policy cannot fire, since rule 1 already rejects its inputs
  (`Ledger.SupersessionIsStrictEscalation`).
- Closing an execution opens verification exactly when it is closed by completing it or verification was
  open already; milestones can close it without evidence and without a verification round
  (`GovernanceGates.ClosingOpensVerificationIff`, `GovernanceGates.MilestonesSkipVerification`).
- The round opened at intake has no required roles, so it never accepts a vote and blocks all others
  (`GovernanceRepairs.IntakeCasesAreNeverPaid`).
- `ROUTING_SUPERSEDED` is never appended: the SYSTEM proof outranks nothing, so the call throws instead
  (`Routing.RoutingService.CommitRoutingLedger`, `Routing.CallThrowsIff`).
- Unread counts ignore the id tie-break of pages and positions (`Messages.UndercountsTies`).
- Overlapping updates of a read position can move it backwards, exactly when one is overtaken between its
  read and its write (`ReadPositionRace.BackwardIffOvertaken`).
- A NaN or infinite number prints like null, and -0 like 0 (`CanonicalJson.ScalarCollisions`).
- The derived execution status can say COMPLETED early from a total weight of 200 on
  (`ExecutionProgress.DerivedStatusAgrees`), and it does not follow a stored status that was set ahead of the
  milestones (`GovernanceGates.ViewShowsStoredStatus`).
- A clock that runs backwards makes the pruned activity list forget events still inside the window
  (`IntegrityAudit.KeptIsWindowIff`).
- The two counterfactual sentences are wrong once the other side has a quorum
  (`Consensus.CounterfactualsAreExact`).
- A positive amount below half a hundredth is accepted and stored as zero (`GovernanceStore.CentsAreNearest`).

## Model

| member | source | states |
|---|---|---|
| `LifecycleProtocol.Linearizable` | src/modules/cases/transitionCaseLifecycleWithLedger.ts:139-247 | For every interleaving of any number of transition transactions, case creations, execution creations, foreign sequence draws and crashes: the committed lifecycle commits of a case, in ts order, are one path of declared edges from INTAKE to the stored lifecycle, no source state used twice, at most seven long, and a commit to EXECUTING implies an execution row |
| `LifecycleProtocol.StepsRefineAtomicTransition` | src/modules/cases/transitionCaseLifecycleWithLedger.ts:200-247 | The visible rows and ledger change in one atomic step only, at transaction commit: an edge lawful for the row found at that moment, logged with the mapped event and the greatest ts of its case; every other step leaves rows and ledger alone |
| `LifecycleProtocol.UpdateLosesIffOvertaken` | src/modules/cases/transitionCaseLifecycleWithLedger.ts:204-217 | The compare-and-set compares values, yet loses exactly when a commit for the case landed after the read (no ABA), and a losing update changes nothing but the process itself |
| `LifecycleProtocol.WritersExclude` | src/modules/cases/transitionCaseLifecycleWithLedger.ts:204-246 | Two processes past the conditional update never work on the same case |
| `LifecycleProtocol.StepKeepsInv` | src/modules/cases/transitionCaseLifecycleWithLedger.ts:139-247 | The protocol invariant (linear history per case, lock holders, program counters consistent with what was read) survives every enabled step |
| `LifecycleProtocol.Reachable` | src/modules/cases/transitionCaseLifecycleWithLedger.ts:139-247 | Every state reached from the empty database by enabled steps satisfies that invariant |
| `LifecycleProtocol.AloneItGoesThroughIff` | src/modules/cases/transitionCaseLifecycleWithLedger.ts:139-247 | From every reachable state, a fresh process that runs its transaction alone on a stored case nobody has locked goes through if and only if the move is in the written-out table of lawful moves and, for EXECUTING, the case has an execution: then the row is at the target and the ledger has exactly one more commit, that of the move; otherwise it is rolled back with rows and ledger as before |
| `LifecycleProtocol.MissingCaseRollsBack` | src/modules/cases/transitionCaseLifecycleWithLedger.ts:139-151 | From every reachable state the transaction for a case that does not exist is rolled back at its read |
| `LifecycleProtocol.DrawsAndCrashes` | src/modules/cases/transitionCaseLifecycleWithLedger.ts:139-247 | In every reachable state any service may draw a sequence number, and exactly a transaction begun and not ended may fail; it is rolled back, its lock is gone, rows and ledger are as before |
| `CaseLifecycle.PathsAreShortAndSimple` | src/modules/cases/caseLifecycle.transitions.ts:13-43 | Every path of declared edges from INTAKE enters no state twice, has at most seven hops, and never ends in ARCHIVED or CANCELLED |
| `CaseLifecycle.LongestPath` | src/modules/cases/caseLifecycle.transitions.ts:17-32 | The bound is met by a path of seven edges ending in COMPLETED |
| `CaseLifecycle.GuardIsLaw` | src/modules/cases/caseLifecycle.transitions.ts:13-43 | The transition guard answers with the target for exactly the moves of a written-out table, throws for every other, and the event map names the event that stands beside the move in that table |
| `CaseLifecycle.OneEventPerMove` | src/modules/cases/caseLifecycle.events.ts:18-45 | That table names one event for each move |
| `LifecycleReplay.DeriveLifecycleFromLedger` | src/modules/cases/deriveLifecycleFromLedger.ts:24-106 | The replay loop returns Replay of the events, which is characterised as the meaning of the last event that denotes a state, INTAKE when none does |
| `LifecycleReplay.ReplayIs` | src/modules/cases/deriveLifecycleFromLedger.ts:24-106 | The replay is l if and only if l is what the last event of the nine that say something says, each as listed, or l is INTAKE and there is none |
| `LifecycleReplay.ReplayTracksStored` | src/modules/cases/deriveLifecycleFromLedger.ts:29-103 | For a lawful history with arbitrary other events: replay equals the image of the stored state at every moment if and only if each extra event is ignored by replay or denotes the image of the state it is recorded in |
| `LifecycleReplay.DriftStates` | src/modules/cases/caseLifecycle.events.ts:18-45 | When notes that denote a state are recorded before EXECUTING (starting, deliveries, routing) or in EXECUTING about the execution: from EXECUTING on replay equals the image of the stored state, so drift is there in HUMAN_REVIEW, REJECTED and COMPLETED always and in no other state |
| `LifecycleReplay.TracksIffLastWordAgrees` | src/modules/cases/deriveLifecycleFromLedger.ts:29-103 | For every lawful history and at any one moment: replay equals the image of the stored state if and only if the last happening that means anything to replay is a transition, or a note denoting the image of the state it was recorded in |
| `LifecycleReplay.DriftIff` | src/modules/cases/deriveLifecycleFromLedger.ts:24-106 | Drift exactly, for every lawful history with any notes: stored equals replayed if and only if the stored state is none of HUMAN_REVIEW, REJECTED and COMPLETED, which replay never says, and that last word agrees |
| `LifecycleReplay.StartedBeforeExecutingDrifts` | src/modules/execution/startExecution.service.ts:94-112 | Starting an execution records EXECUTION_STARTED while the case is still short of EXECUTING; replay then answers EXECUTING although the stored state is not, and agrees again after the next transition |
| `GovernanceDrift.RunsAreHistories` | src/modules/cases/transitionCaseLifecycleWithLedger.ts:139-247 | Refinement: seen from any one case, every run of all services is a lawful history with the ledger events and the stored lifecycle of that run |
| `GovernanceDrift.DriftOverRuns` | src/modules/cases/deriveLifecycleFromLedger.ts:24-106 | Over every run of all services: replay of the ledger gives the stored lifecycle if and only if that is none of HUMAN_REVIEW, REJECTED and COMPLETED and the last word of the case agrees |
| `GovernanceDrift.ExecutingNeverDrifts` | src/modules/cases/deriveLifecycleFromLedger.ts:59-69 | A case at EXECUTING does not drift in any run in which other ledger traffic about cases at EXECUTING means nothing to replay or EXECUTING, and routing notes ROUTED only where no ROUTED stands; traffic about cases in other states is free |
| `GovernanceDrift.RoutedIsOnRecord` | src/modules/cases/caseLifecycle.transitions.ts:17 | In every run a case past INTAKE has a ROUTED event on record, which is why routing never notes one about a case at EXECUTING |
| `GovernanceDrift.TransitionCatchesUp` | src/modules/cases/transitionCaseLifecycleWithLedger.ts:188-246 | From any store, a lawful transition to a state replay can say leaves replay and row at its target |
| `GovernanceDrift.DeliverySaysExecuting` | src/modules/intake/controllers/intake.delivery.controller.ts:94-121 | From any store, a recorded delivery leaves the row alone and makes replay say EXECUTING, whatever state the case is in |
| `GovernanceDrift.EveryOtherStateCanDrift` | src/modules/intake/controllers/intake.delivery.controller.ts:52-121 | INTAKE, ROUTED, ACCEPTED, VERIFIED and FLAGGED are each reached by a run of the services in which one more delivery makes them drift (and, INTAKE apart, which has no drift before it) |
| `Reconciliation.RepairKeepsReplay` | src/modules/cases/lifecycleReconciliation.service.ts:89-115 | A repair changes what replay derives for no case of any tenant, and the repaired case no longer drifts |
| `Reconciliation.Database.ReconcileCaseLifecycle` | src/modules/cases/lifecycleReconciliation.service.ts:54-124 | Missing case: no report, nothing changed; otherwise row overwritten with the replayed state plus one LIFECYCLE_REPAIRED exactly when they differ, with the report of the old state |
| `Reconciliation.Database.Run` | src/modules/cases/tenantLifecycleReconciliation.job.ts:56-92 | After the sweep no case of the tenant drifts; driftedCases and repairedCases equal the initial drift count, and each report describes the initial state of its case |
| `Reconciliation.SweepRepairs` | src/modules/cases/tenantLifecycleReconciliation.job.ts:72-82 | Every listed row holds what replay derived before the sweep, all other rows (other tenants included) are untouched, and the ledger grew by exactly the repairs of the drifted cases, in order |
| `Reconciliation.OneRepairPerCase` | src/modules/cases/lifecycleReconciliation.service.ts:94-115 | Each case gains at most one LIFECYCLE_REPAIRED, and gains it exactly if it had drifted |
| `Reconciliation.SweepIsIdempotent` | src/modules/cases/tenantLifecycleReconciliation.job.ts:52-54 | An immediate second sweep changes nothing and counts no drift |
| `Reconciliation.NothingDriftsAfter` | src/modules/cases/tenantLifecycleReconciliation.job.ts:56-92 | Once all cases of the tenant were listed, stored equals replayed for each of them |
| `Reconciliation.ReportIs` | src/modules/cases/lifecycleReconciliation.service.ts:76-124 | A report holds the row as it was, what its ledger says, and one flag for drift and repair; a drifted case gets row and LIFECYCLE_REPAIRED, any other nothing |
| `Reconciliation.DriftsAreCounted` | src/modules/cases/tenantLifecycleReconciliation.job.ts:72-82 | The drift count is the number of listed cases that drift |
| `Reconciliation.EventsAre` | src/modules/cases/lifecycleReconciliation.service.ts:63-74 | The events replayed for a case are those of its tenant and case, none missing, in ledger order |
| `Ledger.LedgerService.AppendEntry` | src/modules/intake/ledger/ledger.service.ts:106-187 | Refuses with the first failing check and leaves the table and the sequence alone, or appends one commit with the drawn ts and advances the sequence |
| `Ledger.RefusalIs` | src/modules/intake/ledger/ledger.service.ts:106-145 | For every table and every request: which of the six errors it gets, in the order of the checks, or none, told on the rows; in particular every request that meets the rules is accepted |
| `Ledger.OneMoreStep` | src/modules/intake/ledger/ledger.service.ts:147-187 | One more request of a run: a refused one changes nothing, an accepted one appends its commit with the next ts, a lost number only draws one |
| `Ledger.LevelsAre` | src/modules/intake/ledger/authorityHierarchy.policy.ts:26-47 | SYSTEM has level 1 whatever its proof says; a human has 4 for an EXEC: proof, 3 for an ADMIN: proof, 2 otherwise |
| `Ledger.SupersessionIsStrictEscalation` | src/modules/intake/ledger/authorityHierarchy.policy.ts:57-94 | The three rules accept exactly a strictly higher level; rule 2 can never be the one that fires; SYSTEM supersedes nothing |
| `Ledger.ReachableLinksOk` | src/modules/intake/ledger/ledger.service.ts:117-149 | In every reachable ledger ts increases strictly, each link goes forward inside one tenant to a strictly higher level, and no commit is superseded twice |
| `Ledger.SupersessionShape` | src/modules/intake/ledger/ledger.service.ts:117-149 | In every reachable ledger each commit leads to exactly one active commit, in its tenant, over at most three links with increasing ts and level, and chains that end in the same commit lie on one chain |
| `Ledger.HeadIsUnique` | src/modules/intake/ledger/ledger.service.ts:136-137 | Whatever active commit a chain of links reaches from a commit is the one head of that commit |
| `Ledger.ChainsAreDisjoint` | src/modules/intake/ledger/ledger.service.ts:117-149 | Two commits with one head are connected by links: chains never join |
| `Ledger.FourLevelsReached` | src/modules/intake/ledger/authorityHierarchy.policy.ts:26-47 | The depth bound is met: a run builds a chain of four commits |
| `CanonicalJson.RoundTrip` | src/modules/intake/ledger/ledger.crypto.ts:28-42 | For every JSON value v and every text that cannot continue a number, the parser applied to canonicalize(v) followed by that text returns v (keys sorted at every depth, -0 as 0, non-finite numbers as null) and the text |
| `CanonicalJson.CanonicalizeIsInjective` | src/modules/intake/ledger/ledger.crypto.ts:28-42 | Two values print the same if and only if they are equal up to property order at every depth, with -0 counting as 0 and non-finite numbers as null |
| `CanonicalJson.NonFiniteCollidesWithNull` | src/modules/intake/ledger/ledger.crypto.ts:29-31 | What prints like null is null or a non-finite number |
| `CanonicalJson.ScalarCollisions` | src/modules/intake/ledger/ledger.crypto.ts:29-31 | Two different scalars print alike exactly if both are null or non-finite, or both are a zero |
| `JsonText.QuoteRoundTrip` | src/modules/intake/ledger/ledger.crypto.ts:29-31 | Reading a printed string literal followed by any text gives the code units and the text back, with short escapes, control characters and lone surrogates escaped |
| `JsonText.SortedIsCanonical` | src/modules/intake/ledger/ledger.crypto.ts:37 | A list sorted by code unit is determined by its elements, so insertion order cannot show |
| `CanonicalJson.PrintedKeysAscend` | src/modules/intake/ledger/ledger.crypto.ts:37 | The parser reads the whole printed text, and in what it returns the property names ascend at every depth: of two names the earlier runs out first or has the smaller code unit where they first differ |
| `CanonicalJson.PrintedObject` | src/modules/intake/ledger/ledger.crypto.ts:37-42 | An object prints as its names in that ascending order, each with a colon and its value, commas between, braces around |
| `CanonicalJson.PrintedArray` | src/modules/intake/ledger/ledger.crypto.ts:33-35 | An array prints its items in order, commas between, brackets around |
| `CanonicalJson.PrintedScalars` | src/modules/intake/ledger/ledger.crypto.ts:29-31 | What each scalar prints, character by character |
| `CanonicalJson.NumbersAreCovered` | src/modules/intake/ledger/ledger.crypto.ts:29-31 | Every text a finite number prints as (digits, optional minus, fraction and exponent) is a number of the model and prints as itself |
| `JsonText.QuotedUnits` | src/modules/intake/ledger/ledger.crypto.ts:29-31 | A string prints between quotes, unit by unit, each with the escape JSON gives it: seven short ones, four lower-case hexadecimal digits for the other control characters and for lone surrogates, itself otherwise |
| `Preimage.PreimageDeterminesCommit` | src/modules/intake/ledger/ledger.service.ts:151-164 | Two commits have one hash pre-image if and only if all ten fields agree, intentContext and payload as JSON values |
| `Preimage.HashedText` | src/modules/intake/ledger/ledger.service.ts:151-164 | The hashed text is the ten fields in ascending order of their names, commas between, braces around |
| `Preimage.HashedFields` | src/modules/intake/ledger/ledger.service.ts:151-164 | Each of the ten with its name, its separator and its value as printed, an absent one as null |
| `Preimage.DecimalDigits` | src/modules/intake/ledger/ledger.service.ts:163 | The ts is hashed as its decimal digits |
| `Preimage.DifferentTsDifferentPreimage` | src/modules/intake/ledger/ledger.service.ts:147-164 | Commits with different ts never share a pre-image, whatever else they hold |
| `GovernanceRepairs.NoPayoutWithoutQuorum` | src/modules/disbursement/_internal/authorizeDisbursement.service.ts:126-240 | In every run of all services with lifecycle reconciliation anywhere in it: a disbursement rests on a consensus round of its own case and tenant with exactly requiredVerifiers approvals by pairwise different, role-holding voters and on a COMPLETED execution; the ledger holds one DISBURSEMENT_AUTHORIZED followed by one outcome exactly if the status is terminal; without a disbursement it holds none of the three |
| `GovernanceRuns.PaidCasesStayVerified` | src/modules/disbursement/_internal/authorizeDisbursement.service.ts:126-240 | In every run without reconciliation, besides, the paid case is VERIFIED or COMPLETED |
| `GovernanceRepairs.RunsAreAmongThese` | src/modules/cases/lifecycleReconciliation.service.ts:54-124 | A run without repairs is a run with repairs that has none, so what holds of the latter holds of the former |
| `GovernanceRepairs.LeavesVerifiedIff` | src/modules/cases/lifecycleReconciliation.service.ts:76-92 | From any store and by any action: a case leaves VERIFIED and COMPLETED if and only if it is repaired while replay of its ledger says anything but VERIFIED |
| `GovernanceRepairs.RepairReopensConsensus` | src/modules/cases/lifecycleReconciliation.service.ts:89-92 | Under repairs consensus is not for ever nor unique: every bare case has a run that takes it from a consensus back to EXECUTING and on to a second consensus |
| `GovernanceRepairs.RoundsSurviveRepairs` | src/modules/verification/initializeVerification.service.ts:49-59 | In every run with repairs at most one round is open per tenant and case, and a finalised round never changes again |
| `GovernanceRepairs.GuardsSurviveRepairs` | src/modules/execution/completeExecution.service.ts:51-129 | In every run with repairs executions keep the milestone and evidence guard, and no payout is negative |
| `GovernanceRuns.PayoutIsReachable` | src/modules/routing/structuring/mock-engine.ts:163-290 | The theorem is not vacuous: every case that starts as a bare row, the way the mock engine creates it, has a run with two different approving verifiers that pays it, and one whose payment fails, with an amount of one stored as 100 hundredths; cases created at intake have none |
| `GovernanceRuns.AtMostTwoRounds` | src/modules/verification/initializeVerification.service.ts:49-59 | In every run without reconciliation a case has at most one consensus round, and per tenant one open round, hence never three rounds |
| `GovernanceRuns.ConsensusIsForever` | src/modules/verification/verification.service.ts:230-254 | In every run without reconciliation: once a round reaches consensus it never changes again and its case is VERIFIED or COMPLETED however the run goes on |
| `GovernanceRuns.SecondQuorumRollsBack` | src/modules/verification/verification.service.ts:222-256 | In every run without reconciliation: after consensus, a quorum-reaching vote in whatever round of the case is refused and the whole store is as before |
| `GovernanceRepairs.IntakeCasesAreNeverPaid` | src/modules/intake/services/intake.bootstrap.service.ts:254-263 | The round created at intake has no required role, so it accepts no vote and, being open, blocks every other round: in no run, with or without repairs, does such a case reach consensus or get a disbursement |
| `GovernanceRepairs.DecisionHistory` | src/modules/decision/decision.service.ts:106-142 | After any run, with effects of every kind and with repairs, at most one decision per (tenant, case, type) is active, namely the latest; an explicit supersession names the decision active just before; continuing a run only appends and sets open superseding times once |
| `GovernanceRuns.DecisionTakesEffectOrNothing` | src/modules/decision/decision.service.ts:55-159 | A successful decision is the one active decision under its key and has its effect: the case VERIFIED, or the role granted to the user with the address, or else one invitation for it; a refused one leaves the whole store unchanged |
| `GovernanceRuns.StepKeepsInv` | src/modules/verification/verification.service.ts:92-258 | The joint invariant of executions, rounds, decisions, disbursements, ledger and consensus survives every service call with any arguments |
| `GovernanceRuns.StepKeepsSound` | src/modules/verification/verification.service.ts:92-258 | So does its part that mentions no lifecycle, from any store that satisfies that part alone |
| `GovernanceRuns.RunKeepsInv` | src/modules/verification/verification.service.ts:92-258 | The joint invariant survives every run without reconciliation |
| `GovernanceGates.GuardsHoldForever` | src/modules/execution/completeExecution.service.ts:51-129 | In every run, deliveries included: a case at EXECUTING or beyond has an execution of its tenant; a started execution carries the seeded milestones and is COMPLETED once they are done, one created by a delivery carries none and is never in progress; either kind COMPLETED without its milestones done has evidence and a verification round; no payout is negative |
| `GovernanceGates.ClosingOpensVerificationIff` | src/modules/execution/completeMilestone.service.ts:137-164 | For any store and any step that closes an execution: verification is open afterwards (and a round exists) if and only if the step is the completion of the execution or it was open (existed) before |
| `GovernanceGates.MilestonesSkipVerification` | src/modules/execution/completeMilestone.service.ts:137-164 | The negative side is reached: every case has a run in which milestones alone close the execution, with no evidence and no round, and in which completing the execution afterwards changes nothing |
| `GovernanceGates.ViewShowsStoredStatus` | src/modules/execution/execution-progress.service.ts:85-94 | Over every run the derived status equals the stored status column if and only if the execution has milestones and was not closed ahead of them |
| `GovernanceDb.Database.CommitLedgerEvent` | src/modules/intake/ledger/commitLedgerEvent.ts:87-118 | Appends one fact or, for an actor the schema rejects, throws and appends nothing |
| `GovernanceDb.Database.TransitionCaseLifecycleWithLedger` | src/modules/cases/transitionCaseLifecycleWithLedger.ts:139-247 | One transaction on its own: the refusal in source order with the store unchanged, or row and ledger moved together |
| `GovernanceAnswers.TransitionAnswer` | src/modules/cases/transitionCaseLifecycleWithLedger.ts:139-247 | For every store: the transition is made exactly if the actor can be recorded, the case is the tenant's, the move is in the table of lawful moves and EXECUTING finds an execution; then row and one event of that table change and nothing else, otherwise nothing |
| `GovernanceAnswers.TransitionErrors` | src/modules/cases/transitionCaseLifecycleWithLedger.ts:144-182 | Which error each other transition gets, in the order of the checks |
| `GovernanceDb.Database.ApplyDecision` | src/modules/decision/decision.service.ts:55-159 | Refuses with the first failing check, or supersedes, inserts and applies the effect; a missing case or a throwing effect leaves exactly the stated partial writes for the caller's rollback |
| `GovernanceAnswers.DecisionAnswer` | src/modules/decision/decision.service.ts:55-159 | For every store: a decision with a user if human, with an active decision of its key to replace if it names one, about an existing case and with an admissible effect is stored, supersedes the active ones of its key and has its effect in full; any other changes nothing |
| `GovernanceAnswers.DecisionErrors` | src/modules/decision/decision.service.ts:55-159 | Which error each other decision gets, in the order of the checks, those of its effect included |
| `GovernanceAnswers.RegisteredIsProvisioned` | src/modules/orchestrator/orchestrator.service.ts:58-214 | After registration, provisioning that address grants the role to its user and invites nobody |
| `GovernanceDb.Database.ExecuteEffect` | src/modules/orchestrator/orchestrator.service.ts:58-214 | EXECUTION_VERIFIED moves the case or throws; PROVISION_VERIFIER throws without the role, else grants it or replaces the invitation; every other kind throws; a throw changes nothing |
| `GovernanceDb.Database.SupersedeActive` | src/modules/decision/decision.service.ts:106-116 | Exactly the active decisions of the key get the superseding time; everything else is unchanged |
| `GovernanceDb.Database.RecordVerification` | src/modules/verification/verification.service.ts:92-258 | All or nothing: refused for the first failing reason, however late, with the store restored; otherwise the vote alone, or vote, consensus, decision and lifecycle together when it reaches the quorum |
| `GovernanceAnswers.VoteAnswer` | src/modules/verification/verification.service.ts:142-256 | For every store: a vote of any status by a holder of one of the round's roles who has not voted, in an open round on a completed execution, is stored with one VERIFICATION_SUBMITTED and nothing else changes as long as the approvals stay below the quorum; one that reaches it is stored with consensus, decision, VERIFIED row and event exactly if the case of the round's tenant is at EXECUTING or HUMAN_REVIEW; otherwise nothing changes |
| `GovernanceAnswers.VoteErrors` | src/modules/verification/verification.service.ts:100-169 | Which error each other vote gets, in the order of the checks |
| `GovernanceDb.Database.InitializeVerification` | src/modules/verification/initializeVerification.service.ts:39-145 | Returns an open round of the case: the existing one with nothing written, or a new one asking two VERIFIERs, with its event; throws without a completed execution or the role with nothing written, or at the ledger with only the round left for the caller's rollback |
| `GovernanceAnswers.OpeningAnswer` | src/modules/verification/initializeVerification.service.ts:39-145 | For every store: an open round is kept; otherwise a completed execution, the role and an actor that can be recorded give one empty round for two verifiers with one event, and each missing one its error |
| `GovernanceDb.Database.EnsureVerificationRound` | src/modules/verification/requestVerification.service.ts:86-186 | Returns an open round of the case: the existing one with nothing written, or a new one with the requested roles and its event |
| `GovernanceAnswers.RequestAnswer` | src/modules/verification/requestVerification.service.ts:86-186 | For every store: a requested round is opened, empty and with the roles asked for, exactly if the case exists and none is open |
| `GovernanceDb.Database.StartExecution` | src/modules/execution/startExecution.service.ts:25-116 | Creates the execution with its three seeded milestones and its event once; a repeated call changes nothing; a refused one rolls back |
| `GovernanceAnswers.StartAnswer` | src/modules/execution/startExecution.service.ts:25-116 | For every store: an execution in progress with three open milestones of weight 2, 1 and 2 is created with one event exactly for the tenant's unarchived case without one and an actor that can be recorded |
| `GovernanceAnswers.ArchivedIsNotStarted` | src/modules/execution/startExecution.service.ts:25-116 | Once a case is archived no start of it is accepted, in whatever tenant |
| `GovernanceDb.Database.CompleteExecution` | src/modules/execution/completeExecution.service.ts:37-133 | Closes the execution and opens verification together, or throws with the store restored, also when opening verification fails |
| `GovernanceAnswers.CompletionAnswer` | src/modules/execution/completeExecution.service.ts:37-133 | For every store: an execution that is neither completed nor aborted and has evidence is completed exactly if the actor can be recorded and a round is open or the role to open one exists; what changes is the status, one event, and a round with its event if none was open |
| `GovernanceAnswers.CompletionErrors` | src/modules/execution/completeExecution.service.ts:51-95 | Which error each other completion gets, in the order of the checks |
| `GovernanceDb.Database.CompleteMilestone` | src/modules/execution/completeMilestone.service.ts:60-166 | Refusals in source order; otherwise the milestone, and the execution when the weights add up, with one or two events, nothing on a repeat |
| `GovernanceAnswers.MilestoneAnswer` | src/modules/execution/completeMilestone.service.ts:60-166 | For every store with positive weights: an open milestone of the tenant's execution in progress is marked with one event, and the last one closes the execution with a second; nothing else is ever changed, and each refusal has its error |
| `GovernanceDb.Database.RecordDelivery` | src/modules/intake/controllers/intake.delivery.controller.ts:51-121 | Missing case: nothing changed; otherwise a CREATED execution without milestones if there was none, and one progress event |
| `GovernanceAnswers.DeliveryAnswer` | src/modules/intake/controllers/intake.delivery.controller.ts:51-121 | For every store: a delivery for the tenant's case logs one event and creates a bare execution exactly if there is none |
| `GovernanceAnswers.IntakeAnswer` | src/modules/intake/services/intake.bootstrap.service.ts:254-300 | For every store: a new case comes at INTAKE with an open round that asks for two verifiers and has no role, and one event |
| `GovernanceDb.Database.LatestConsensus` | src/modules/disbursement/_internal/authorizeDisbursement.service.ts:149-153 | Finds a consensus round of the case with the greatest verifiedAt, if and only if there is a consensus round |
| `GovernanceDb.Database.AuthorizeDisbursement` | src/modules/disbursement/_internal/authorizeDisbursement.service.ts:117-242 | A repeated call answers from the row and changes nothing; otherwise the first failing precondition with the store unchanged, or one AUTHORIZED row resting on the latest consensus, with its event |
| `GovernanceAnswers.AuthorizeAnswer` | src/modules/disbursement/_internal/authorizeDisbursement.service.ts:102-242 | For every store: a payout is authorised exactly for the tenant's VERIFIED case with a completed execution, a consensus, a positive amount, an actor that can be recorded and no disbursement yet; the row holds the hundredths nearest to the amount, halves upwards, and rests on the latest consensus, with one event |
| `GovernanceAnswers.AuthorizeErrors` | src/modules/disbursement/_internal/authorizeDisbursement.service.ts:126-176 | Which error each other authorisation gets, in the order of the checks |
| `GovernanceRepairs.DisbursementsStay` | src/modules/disbursement/_internal/executeDisbursement.service.ts:38-104 | From any store and through any actions, repairs included: a disbursement keeps amount, tenant and round for ever, and its outcome once it has one |
| `GovernanceDb.Database.ExecuteDisbursement` | src/modules/disbursement/_internal/executeDisbursement.service.ts:22-107 | Only from AUTHORIZED: ends COMPLETED or FAILED with the matching event, or throws with the store restored |
| `GovernanceAnswers.SettleAnswer` | src/modules/disbursement/_internal/executeDisbursement.service.ts:38-104 | For every store: exactly an AUTHORIZED disbursement and an actor that can be recorded are settled, as COMPLETED with DISBURSEMENT_COMPLETED if the payment succeeded and as FAILED with DISBURSEMENT_FAILED if not; each refusal has its error |
| `GovernanceRepairs.OutcomeIsReported` | src/modules/disbursement/_internal/executeDisbursement.service.ts:38-104 | In every run with repairs: a disbursement is paid exactly if an execution that took effect on it reported success, failed exactly if one reported failure, and authorised exactly as long as none took effect |
| `GovernanceRepairs.OneTakesEffect` | src/modules/disbursement/_internal/executeDisbursement.service.ts:38-48 | In every run with repairs at most one action ever settles a disbursement |
| `GovernanceStore.CentsAreNearest` | src/modules/disbursement/_internal/authorizeDisbursement.service.ts:102-111 | The stored hundredths are nearest to the amount, halves upwards; an accepted amount is stored as zero exactly when it is below 0.005 |
| `ExecutionProgress.SumWeights` | src/modules/execution/completeMilestone.service.ts:121-130 | The two reductions compute the total and the completed weight |
| `ExecutionProgress.WeightsDecide` | src/modules/execution/completeMilestone.service.ts:125-137 | For positive weights the completed weight equals the total exactly when every milestone is completed |
| `ExecutionProgress.WeightlessStaysOpen` | src/modules/execution/completeMilestone.service.ts:121-137 | For any weights: a fresh completion closes the execution exactly if the total is positive and reached, so with no weight at all it stays open |
| `ExecutionProgress.MilestoneRuns` | src/modules/execution/completeMilestone.service.ts:64-164 | For any sequence of completions, in any order and with repeats: exactly the named milestones are completed, the execution is COMPLETED if and only if all are, with one progress event per milestone and one completion event |
| `ExecutionProgress.PercentGrows` | src/modules/execution/execution-progress.service.ts:65-83 | Completing a milestone never lowers the percentage, which stays within 0..100 |
| `ExecutionProgress.PercentBounds` | src/modules/execution/execution-progress.service.ts:82-83 | The rounded percentage is 100 exactly from 99.5 % of the weight on |
| `ExecutionProgress.PercentIsNearest` | src/modules/execution/execution-progress.service.ts:82-83 | The percentage is the whole number nearest to the share of the weight done, halves upwards, and 0 without weight |
| `ExecutionProgress.DerivedStatusAgrees` | src/modules/execution/execution-progress.service.ts:82-94 | The derived status agrees with the milestones if and only if the weight done is not between 99.5 % and all of it, in particular for every total below 200 |
| `ExecutionProgress.RoundingHidesTheLastMilestone` | src/modules/execution/execution-progress.service.ts:82-94 | At a total of 200 the view says COMPLETED with a milestone open |
| `Consensus.OrderIrrelevant` | src/modules/verification/evaluateVerificationConsensus.ts:56-90 | The phase depends on the multiset of votes only |
| `Consensus.ApprovalIsAbsorbing` | src/modules/verification/evaluateVerificationConsensus.ts:60-67 | An APPROVED phase stays APPROVED under any further votes |
| `Consensus.DisputesNeedAQuorum` | src/modules/verification/evaluateVerificationConsensus.ts:69-89 | For a positive quorum: PENDING exactly without votes, DISPUTED only with votes on both sides, and a dispute ends in a quorum or not at all |
| `Consensus.AgreesWithQuorum` | src/modules/verification/evaluateVerificationConsensus.ts:60-120 | The evaluator and the status derived from it say APPROVED for the votes including the new one exactly when voting finalises the round; REJECTED is derived exactly for a rejection quorum without that, PENDING otherwise |
| `Consensus.RemainingIsLeast` | src/modules/verification/explainVerificationState.ts:52-59 | remainingApprovalsNeeded is the least number of extra approvals that gives APPROVED; below that quorum, remainingRejectionsNeeded is the least number of extra rejections that gives REJECTED |
| `Consensus.CounterfactualsAreExact` | src/modules/verification/explainVerificationState.ts:71-81 | Each counterfactual is what the evaluator would answer if and only if a stated condition holds; both do whenever neither side has a quorum |
| `Consensus.CounterfactualsGoWrong` | src/modules/verification/explainVerificationState.ts:71-81 | Both sentences do go wrong: at a quorum of two, after two rejections and after two approvals |
| `Routing.RoutingIsRight` | src/modules/routing/computeRouting.ts:25-74 | For distinct ids the engine returns the capable originator, else the least capable id, else the fallback with the matching reason, else throws |
| `Routing.OrderIrrelevant` | src/modules/routing/computeRouting.ts:25-27 | For distinct ids the answer is invariant under permuting the candidates |
| `Routing.RoutingService.CommitRoutingLedger` | src/modules/routing/commitRoutingLedger.ts:26-96 | Appends ROUTED exactly when the case has no active ROUTED commit; otherwise the superseding append is refused for want of authority and nothing changes |
| `Routing.RoutingService.RouteCase` | src/modules/routing/routing.service.ts:44-148 | Existing decision: its answer, nothing changed; otherwise decision and commit together, or a throw that leaves the state as it was |
| `Routing.ChoiceIs` | src/modules/routing/routing.service.ts:77-113 | For every state with distinct body ids, told on the rows: the case goes to its originator if that supports the intent, else to the least id of its tenant that does, else to the least fallback id, with outcome and reason for each, else to nobody |
| `Routing.RoutedEntryIs` | src/modules/routing/commitRoutingLedger.ts:57-95 | What is logged is a ROUTED event of the SYSTEM about the case that supersedes nothing |
| `Routing.CallsKeepInv` | src/modules/routing/routing.service.ts:61-141 | A call keeps one decision per case and no ROUTING_SUPERSEDED in the ledger; an undecided, assignable case is routed exactly if it has no active ROUTED commit |
| `Routing.RunsKeepInv` | src/modules/routing/commitRoutingLedger.ts:57-95 | So does every run of calls between any other ledger traffic |
| `Routing.RoutingIsIdempotent` | src/modules/routing/routing.service.ts:61-71 | In every run of routing calls between other ledger traffic: once a call for a case has succeeded, every later call for it, for whatever intent, gives the same answer and changes nothing |
| `Routing.TransitionFirstBlocksRouting` | src/modules/routing/commitRoutingLedger.ts:40-69 | In every run: if another service appends a ROUTED commit to an undecided case (as the lifecycle transition does), every later call throws and changes nothing as long as no entry supersedes that commit |
| `Routing.RoutedCommitBlocksRouting` | src/modules/routing/commitRoutingLedger.ts:40-69 | The same for any active ROUTED commit, whoever appended it |
| `Routing.CallThrowsIff` | src/modules/routing/commitRoutingLedger.ts:40-69 | In every run a call for an undecided, assignable case throws if and only if the case has an active ROUTED commit at that moment |
| `Routing.SupersessionFreesRouting` | src/modules/intake/ledger/ledger.service.ts:117-145 | A user can free the case again: superseding the one active ROUTED commit of the SYSTEM by an entry of another type is accepted and leaves none active |
| `Messages.PagesCoverListing` | src/modules/message/message.service.ts:185-247 | Following nextCursor until hasMore is false terminates; the un-reversed pages concatenate to the (createdAt, id)-descending list, in max(1, ceil(n / limit)) pages, all but the last full |
| `Messages.PagesHold` | src/modules/message/message.service.ts:185-247 | The pages un-reversed and joined hold every message of the tenant's case and no other, latest first, the id deciding ties |
| `Messages.PageHolds` | src/modules/message/message.service.ts:185-247 | One page: the latest messages that lie before the cursor, oldest first, at most the limit; hasMore exactly if it left some out, and then it is full and nextCursor is its oldest message |
| `Messages.PageSize` | src/modules/message/message.service.ts:176-184 | The limit is brought into 1 to 100 |
| `Messages.QueryAfter` | src/modules/message/message.service.ts:197-230 | Asking for what lies before the k-th row of a listing gives exactly the rest of that listing |
| `Messages.ListingIsUnique` | src/modules/message/message.service.ts:228 | A set of rows has one descending listing, so the query result is determined |
| `Messages.NewerMessagesDoNotDisturb` | src/modules/message/message.service.ts:201-209 | Inserting messages that are not before the cursor changes none of the remaining pages |
| `Messages.MessageService.CreateMessage` | src/modules/message/message.service.ts:92-169 | A known mutation id returns its message and writes nothing; otherwise the first failing check, or exactly one new message with its evidence rows |
| `Messages.MutationIs` | src/modules/message/message.service.ts:92-105 | A mutation id is looked up in its tenant only, and a message without one is never found |
| `Messages.MessageService.GetMessagesByCase` | src/modules/message/message.service.ts:176-248 | pop and in-place reverse give the first limit rows of the listing, oldest first, with the cursor of the oldest |
| `Messages.MessageService.GetUnreadCount` | src/modules/message/message.service.ts:254-289 | Counts messages of others, all of them without a position, else those with a later creation time |
| `Messages.UnreadIs` | src/modules/message/message.service.ts:254-289 | Counted are the rows of the case by other authors, with a position those created after the message it names |
| `Messages.MessageService.UpdatePosition` | src/modules/message/read-position.service.ts:16-111 | An update nobody overlaps: throws for a message outside the case; otherwise the position becomes the later of the two |
| `Messages.AdvanceIs` | src/modules/message/read-position.service.ts:64-86 | The position becomes the message read unless that is earlier by time or, at one time, by id |
| `Messages.EndsAtMaximum` | src/modules/message/read-position.service.ts:64-110 | Any sequence of updates, one after the other, ends at the lexicographic maximum of the start and the messages read |
| `Messages.UpdateOrderIrrelevant` | src/modules/message/read-position.service.ts:64-110 | Hence two sequences of updates over the same messages end at the same position |
| `ReadPositionRace.BackwardIffOvertaken` | src/modules/message/read-position.service.ts:46-110 | With updates interleaved statement by statement: a step moves the position backwards if and only if it is the write of an update that another write, made since it read, has taken past its message |
| `ReadPositionRace.WithoutOverlapAllAdvance` | src/modules/message/read-position.service.ts:58-110 | A run in which no write falls between the read and the write of another update has the effect of the updates one after the other, so it ends at the maximum |
| `ReadPositionRace.EndsAtGreatestIff` | src/modules/message/read-position.service.ts:58-110 | For every interleaving that wrote: it ends at the greatest of the start and all messages if and only if every write after the last write of the greatest message was made by an update that read after that write too |
| `ReadPositionRace.NothingWritten` | src/modules/message/read-position.service.ts:77-84 | A run that wrote nothing keeps its start, and all its messages lie before it |
| `ReadPositionRace.NeverBehindStart` | src/modules/message/read-position.service.ts:64-86 | Whatever the overlap, the position never falls behind the one the run began with |
| `ReadPositionRace.OverlapLosesGround` | src/modules/message/read-position.service.ts:46-110 | For every two messages past the position, two overlapping updates can end at the earlier one |
| `Messages.UndercountsTies` | src/modules/message/message.service.ts:281-288 | The unread count misses exactly the messages of the same millisecond with a greater id |
| `Messages.TiesAreMissed` | src/modules/message/message.service.ts:281-288 | It does miss some: of two messages of one millisecond, the second when the first has been read |
| `Messages.UnreadNeverRises` | src/modules/message/message.service.ts:281-288 | Moving the position by an update never raises the count |
| `IntegrityAudit.IntegrityService.PerformFullAudit` | src/modules/intake/intergrity/integrity.service.ts:132-245 | For any clock the flags from pruned lists, sets and counters are those the full history of calls prescribes, with the events no later event has pushed out; as long as no event returns to the window those are the last ten minutes; and the state again says what the longer history says |
| `IntegrityAudit.EngineAnswer` | src/modules/intake/intergrity/integrity.audit.ts:77-199 | A call that is not stopped gets, in this order and told on the calls before it: LOW within the cooldown of the device's last anonymous call, HIGH for a narrative told before, the registry flag, HIGH for an injection, each with its kind and time |
| `IntegrityAudit.StoppedIff` | src/modules/intake/intergrity/integrity.audit.ts:64-72 | A call is stopped, with one HIGH identity flag, exactly if its device was loaded as blacklisted or has made five HIGH calls that got past the blacklist |
| `IntegrityAudit.LinksFlaggedIff` | src/modules/intake/intergrity/integrity.audit.ts:126-150 | The registry flag is raised exactly for an untrusted call of a device that has served more than three beneficiaries |
| `IntegrityAudit.DeviceCountIff` | src/modules/intake/intergrity/integrity.service.ts:147-170 | The device-count flag is raised exactly if more than three devices were ever used for the beneficiary of an untrusted call |
| `IntegrityAudit.RotationIff` | src/modules/intake/intergrity/integrity.service.ts:175-203 | As long as no event returns to the window, the rotation flag is raised exactly if more than three devices were used in the last ten minutes |
| `IntegrityAudit.IntegrityService.EngineAudit` | src/modules/intake/intergrity/integrity.audit.ts:41-199 | Same for the engine's five structures, for any clock; a call stopped by the blacklist changes none of them |
| `IntegrityAudit.IntegrityService.Escalate` | src/modules/intake/intergrity/integrity.audit.ts:184-196 | Counter and blacklist keep saying what the history says |
| `IntegrityAudit.IntegrityService.CheckRotation` | src/modules/intake/intergrity/integrity.service.ts:175-203 | The rotation flag and the kept list equal those of the surviving events of the full history, and the flag that of its last ten minutes when no event returns to the window |
| `IntegrityAudit.IntegrityService.CheckDeviceCount` | src/modules/intake/intergrity/integrity.service.ts:147-168 | The device-count flag equals the one computed from all devices ever used |
| `IntegrityAudit.IntegrityService.CheckLinks` | src/modules/intake/intergrity/integrity.audit.ts:126-156 | The registry and its flag equal those of the history |
| `IntegrityAudit.IntegrityService.CheckCooldown` | src/modules/intake/intergrity/integrity.audit.ts:81-94 | The cooldown flag compares with the device's last anonymous call that got past the blacklist |
| `IntegrityAudit.IntegrityService.CheckDuplicate` | src/modules/intake/intergrity/integrity.audit.ts:100-120 | The duplicate flag is raised exactly for a narrative of an earlier anonymous call that got past the blacklist |
| `IntegrityAudit.CounterAndBlacklist` | src/modules/intake/intergrity/integrity.audit.ts:184-196 | A device's violations are its HIGH audits while not blacklisted, never more than five, and it is auto-blacklisted exactly at the fifth; a device blacklisted at start collects none |
| `IntegrityAudit.BlacklistIsForever` | src/modules/intake/intergrity/integrity.audit.ts:64-72 | Once blacklisted, every later call for the device returns one HIGH flag and adds no violation, link, narrative or activity |
| `IntegrityAudit.PruningRefinesHistory` | src/modules/intake/intergrity/integrity.service.ts:185-192 | With a non-decreasing clock pruning the pruned list equals pruning the full history |
| `IntegrityAudit.PruningKeepsSurvivors` | src/modules/intake/intergrity/integrity.service.ts:178-192 | For any clock pruning after each event keeps exactly the events that no later event came ten minutes after |
| `IntegrityAudit.KeptIsWindowIff` | src/modules/intake/intergrity/integrity.service.ts:185-192 | The kept list is the last ten minutes of the full history if and only if no event inside that window was outside it at a call in between |
| `IntegrityAudit.RotationIsRight` | src/modules/intake/intergrity/integrity.service.ts:194-202 | When no event returns to the window the rotation flag is the one the full history prescribes |
| `IntegrityAudit.RunningClockReturnsNothing` | src/modules/intake/intergrity/integrity.service.ts:176-192 | With a clock that does not run backwards no event ever returns to the window |
| `IntegrityAudit.ClockSetBackHidesRotation` | src/modules/intake/intergrity/integrity.service.ts:185-202 | With a clock set back four devices in the window can go unflagged |
| `IntegrityAudit.SeenIff` | src/modules/intake/intergrity/integrity.audit.ts:100-120 | A narrative is known exactly if an earlier anonymous call that got past the blacklist told it |
| `IntegrityAudit.LinksIff` | src/modules/intake/intergrity/integrity.audit.ts:126-137 | A beneficiary is linked to a device exactly if loaded so or named by a call of the device that got past the blacklist |
| `IntegrityAudit.LinksNeverRepeat` | src/modules/intake/intergrity/integrity.audit.ts:131-133 | A device is never linked to one beneficiary twice, so the length of its list counts beneficiaries |
| `IntegrityAudit.LastActiveIs` | src/modules/intake/intergrity/integrity.audit.ts:81-94 | The time kept for a device is that of its last anonymous call that got past the blacklist, 0 without one |
| `IntegrityAudit.ViolationsAreCounted` | src/modules/intake/intergrity/integrity.audit.ts:184-187 | The counter of a device is the number of its HIGH calls that got past the blacklist |
| `IntegrityAudit.ActivityAfter` | src/modules/intake/intergrity/integrity.service.ts:175-192 | The kept list after a call is the ten-minute window of all untrusted events of the beneficiary if and only if no event returned to it |
| `IntegrityAudit.HighFlags` | src/modules/intake/intergrity/integrity.audit.ts:184 | A call that got past the blacklist counts as a violation exactly when some flag it returns is HIGH |
| `Timeline.Build` | src/modules/timeline/timeline.service.ts:115-337 | The timeline is the stable time-sorted list of all items; counts are those of the lists shown |
| `Timeline.TimelineHolds` | src/modules/timeline/timeline.service.ts:128-314 | The timeline holds exactly: one item per window opened, as last opened and last closed; one per delivery; one per follow-up of a delivery; and a gap 30, 90 or 180 days after a delivery where none of its follow-ups lies within fourteen days, missing from that moment on |
| `Timeline.PlaceIs` | src/modules/timeline/timeline.service.ts:80-88 | The place shown: a text as it is, of community, name and region the first given, and without any the word community |
| `Timeline.ByTsIsStable` | src/modules/timeline/timeline.service.ts:144-145 | Deliveries and follow-ups of one ts keep their order when sorted by ts |
| `Timeline.ByTsOrders` | src/modules/timeline/timeline.service.ts:144-145 | And are in ascending order of ts |
| `Timeline.ProjectWindows` | src/modules/timeline/timeline.service.ts:172-215 | The window loops compute the windows as last opened and last closed, in first-opening order |
| `Timeline.MatchFollowups` | src/modules/timeline/timeline.service.ts:246-276 | The matching loop computes the greedy gaps |
| `Timeline.ProjectDelivery` | src/modules/timeline/timeline.service.ts:227-288 | One delivery yields its item with the number of item types and the normalised place, its gaps in schedule order and its related follow-ups with their kind |
| `Timeline.GapIffUncovered` | src/modules/timeline/timeline.service.ts:248-275 | In whatever order follow-ups are listed: a slot that, if covered at all, is covered by a follow-up whose id is not spent on an earlier slot yields a gap if and only if no related follow-up lies within fourteen days of it |
| `Timeline.DistinctIdsAreFresh` | src/modules/timeline/timeline.service.ts:252-262 | Distinct non-empty ids give every covered slot such a follow-up, since no follow-up covers two slots |
| `Timeline.GreedyIsOptimal` | src/modules/timeline/timeline.service.ts:246-276 | For distinct ids, and whenever all covered slots are so covered, every assignment of follow-ups to slots leaves open all slots the greedy pass leaves open |
| `Timeline.DuplicateIdsCostAGap` | src/modules/timeline/timeline.service.ts:258-265 | With an id spent on an earlier slot the pass can leave two gaps where another assignment with different ids leaves one |
| `Timeline.OpenedWindows` | src/modules/timeline/timeline.service.ts:172-184 | One window per id ever validly opened, as its last opening describes it |
| `Timeline.ClosedWindows` | src/modules/timeline/timeline.service.ts:186-193 | Closing sets only the closing time, to that of the last closing recorded for the id |
| `Timeline.TimelineShape` | src/modules/timeline/timeline.service.ts:298-314 | The output is a time-ordered permutation of all items, of length windows + deliveries + gaps + related follow-ups |
| `Timeline.GapsAreCounted` | src/modules/timeline/timeline.service.ts:316-334 | The reported number of gaps is the number of slots left open over all deliveries |
| `Timeline.ByTimeOrders` | src/modules/timeline/timeline.service.ts:298-314 | The sorted list is ordered by displayed time and as long as its input |
| `Timeline.ByTimeIsStable` | src/modules/timeline/timeline.service.ts:294-314 | Items with one displayed time keep their order |
| `OfflineQueue.NothingLostNothingDoubled` | src/modules/routing/structuring/postwin-offline.service.ts:79-164 | In every interleaving of enqueues, overlapping ticks, successes and failures: enqueued = synced + queued + in flight, and intakes = synced + failures after intake + items awaiting routing, item by item |
| `OfflineQueue.StepConserves` | src/modules/routing/structuring/postwin-offline.service.ts:95-163 | Each stretch of code between two awaits keeps both accounts |
| `OfflineQueue.DrainedMeansSynced` | src/modules/routing/structuring/postwin-offline.service.ts:95-163 | When queue and ticks are drained, synced equals enqueued |
| `OfflineQueue.CanDrain` | src/modules/routing/structuring/postwin-offline.service.ts:95-163 | From every reachable state the run can go on, without a failure, until everything enqueued is synced |
| `OfflineQueue.QueueKeepsOrder` | src/modules/routing/structuring/postwin-offline.service.ts:79-99 | In every interleaving: what the timer has taken followed by what is queued is what entered the queue, in that order |
| `OfflineQueue.TicksKeepOrder` | src/modules/routing/structuring/postwin-offline.service.ts:95-163 | A tick starts with the whole queue in its order and works it off from the front |
| `OfflineQueue.PostWinOfflineService.EnqueueIntake` | src/modules/routing/structuring/postwin-offline.service.ts:79-85 | Adds the item at the end of the queue and nothing else |
| `OfflineQueue.PostWinOfflineService.TimerCallback` | src/modules/routing/structuring/postwin-offline.service.ts:96-99 | Does nothing on an empty queue, else moves the whole queue into a new tick |
| `OfflineQueue.PostWinOfflineService.AfterIntake` | src/modules/routing/structuring/postwin-offline.service.ts:118-139 | The first item of the tick has passed intake; queue and the other ticks are unchanged |
| `OfflineQueue.PostWinOfflineService.AfterRouting` | src/modules/routing/structuring/postwin-offline.service.ts:147-153 | The first item of the tick is synced and leaves it |
| `OfflineQueue.PostWinOfflineService.Caught` | src/modules/routing/structuring/postwin-offline.service.ts:154-162 | The failed item leaves the tick and joins the end of the queue |

## Left out

- HTTP controllers, authentication, storage, mail and websocket plumbing. Two database writers among them are modelled: the delivery controller, which creates executions and records progress, and the bare case row of the mock engine.
- The mock engine's execution without milestones, and its hand-made roles and evidence; executions in the runs come from starting one or from a delivery.
- RSA signing, SHA-256 and key files: the hash is an opaque function, and only its pre-image is modelled.
- Schema validation and UUID patterns: inputs are taken as validated, except for the actor rules of the ledger schema, which are modelled. Empty strings, absent optional fields and amounts that are not positive or not numbers are modelled.
- The Prisma guard on lifecycle writes: the model has the writes the services issue, outside that guard.
- Appeals, tranche reversal and compensation, and services for case workflow steps, localisation and tone.
- Tokens and expiry of the invitations a provisioned verifier gets: an invitation is its address and role.
- The advisory lock of the reconciliation scheduler. Repairs in the runs of `GovernanceRepairs` are one step each, and the statements of `GovernanceRuns` and `GovernanceDrift` about runs are about runs without them.
- The uniqueness of (tenant, request id) in the ledger table.
- Interleaving inside a transaction other than the lifecycle transition: every other service call is one atomic step.
- Properties whose value is undefined, sparse arrays and objects with toJSON inside hashed data; a number stands for the text that prints it, so the conversion of numbers to text is not modelled.
- Payloads, reasons, notes, evidence rows and intent contexts of ledger facts outside `Preimage`, and currency and payee of a disbursement.
- Floating point: weights and percentages are integers and rationals, amounts are real numbers.
- The narrative's case folding, trimming and injection patterns: their results are inputs of an audit call. One clock reading serves a whole call.
- The audit's saves to disk and its idempotency store.
- The timeline's event types (windows, deliveries, follow-ups) are not in the ledger's event list, and the ledger's ts is a sequence number: the projection is modelled for the entries it is written for, with ts in milliseconds.
- `localeCompare` on ids and ISO times is the order of the naturals and integers that stand for them.
- `Messages.MessageService.CreateMessage`: of an evidence row only tenant, message and storage key are modelled.
- `Messages.MessageService.UpdatePosition`: one update without overlap; overlapping ones are the subject of `ReadPositionRace`.
- `Timeline.ProjectDelivery`: the summary is the number of item types and the place, not the sentence around them.
- `GovernanceDb.Database.ExecuteDisbursement`: a disbursement is found by its case, which is unique, and the case id stands for the disbursement id.
