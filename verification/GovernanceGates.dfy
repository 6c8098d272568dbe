/** What the services' guards add up to over whole runs: no work without an execution, no completion
    without milestones or evidence, no negative payout. */
module GovernanceGates {
  import opened Common
  import opened CaseLifecycle
  import opened ExecutionProgress
  import Ledger
  import opened GovernanceStore
  import opened GovernanceRuns

  type TenantId = Ledger.TenantId
  type CaseId = Ledger.CaseId

  predicate HasRound(s: Store, t: TenantId, c: CaseId) {
    exists i :: 0 <= i < |s.rounds| && s.rounds[i].tenantId == t && s.rounds[i].caseId == c
  }

  /** A case at EXECUTING or beyond has an execution of its own tenant. */
  predicate CaseGate(s: Store, c: CaseId) {
    c in s.cases && Height(s.cases[c].lifecycle) >= Height(Executing) ==> ExecutionIn(s, s.cases[c].tenantId, c)
  }

  /** The milestones every started execution is seeded with, some of them completed since. */
  predicate Seeded(ms: seq<Milestone>) {
    |ms| == |SEEDED| && forall i :: 0 <= i < |ms| ==> ms[i].weight == SEEDED[i].weight
  }

  /** Nothing is left to do. An execution that a delivery created has no milestones, so it never gets there. */
  predicate WorkDone(e: Execution) {
    e.milestones != [] && AllCompleted(e.milestones)
  }

  /** A started execution carries the seeded milestones and is closed once they are done; one that a
      delivery created carries none and is never in progress. Closed before its milestones are done, either
      has evidence and a round. */
  predicate ExecutionGate(s: Store, c: CaseId) {
    c in s.executions ==>
      var e := s.executions[c];
      && (if e.milestones == [] then e.status in {Created, Finished}
          else Seeded(e.milestones) && e.status in {InProgress, Finished})
      && (WorkDone(e) ==> e.status == Finished)
      && (e.status == Finished && !WorkDone(e) ==> c in s.evidence && HasRound(s, e.tenantId, c))
  }

  predicate PayoutGate(s: Store, c: CaseId) {
    c in s.disbursements ==> s.disbursements[c].cents >= 0
  }

  // ---- Cases ----

  lemma {:induction false} EdgesBeyondExecuting(from: Lifecycle, to: Lifecycle)
    requires Edge(from, to)
    ensures Height(to) >= Height(Executing) && to != Executing ==> Height(from) >= Height(Executing)
  {
  }

  lemma {:induction false} StepKeepsCaseGate(s: Store, step: Step, c: CaseId)
    requires CaseGate(s, c)
    ensures CaseGate(Apply(s, step), c)
  {
    StepGrows(s, step);
    CasesAfter(s, step);
    hide Apply;
    var s' := Apply(s, step);
    if !SameLifecycles(s, s') {
      var t, d, target :| MovesOne(s, s', t, d, target);
      EdgesBeyondExecuting(s.cases[d].lifecycle, target);
      hide Edge;
    }
  }

  // ---- Executions ----

  /** Rounds and evidence stay, so an execution that a step leaves alone keeps its gate. */
  lemma {:induction false} UntouchedExecution(s: Store, s': Store, c: CaseId)
    requires ExecutionGate(s, c) && RoundsGrow(s, s') && s.evidence <= s'.evidence
    requires c in s'.executions ==> c in s.executions && s'.executions[c] == s.executions[c]
    ensures ExecutionGate(s', c)
  {
    if c in s.executions && HasRound(s, s.executions[c].tenantId, c) {
      var i :| 0 <= i < |s.rounds| && s.rounds[i].tenantId == s.executions[c].tenantId && s.rounds[i].caseId == c;
      assert s'.rounds[i].caseId == c;
    }
  }

  lemma {:induction false} SeededIsOpen()
    ensures Seeded(SEEDED) && !AllCompleted(SEEDED)
  {
    assert !SEEDED[0].completed;
  }

  lemma {:induction false} SeededFacts(ms: seq<Milestone>)
    requires Seeded(ms)
    ensures ms != [] && PositiveWeights(ms) && TotalWeight(ms) == 5
  {
    var one, two := ms[..1], ms[..2];
    assert one[..0] == [] && two[..1] == one && ms[..|ms| - 1] == two;
    assert TotalWeight(one) == one[0].weight;
    assert TotalWeight(two) == TotalWeight(one) + two[1].weight;
  }

  lemma {:induction false} MilestoneKeepsGate(s: Store, t: TenantId, c: CaseId, i: nat)
    requires ExecutionGate(s, c) && MilestoneRefusal(s, t, c, i).None?
    ensures ExecutionGate(MilestoneDone(s, t, c, i), c)
  {
    var e := s.executions[c];
    SeededFacts(e.milestones);
    if !e.milestones[i].completed {
      MarkOne(e, i);
      WeightsDecide(Mark(e, i).milestones);
    }
    hide TotalWeight, CompletedWeight;
  }

  lemma {:induction false} CompletionKeepsGate(s: Store, t: TenantId, c: CaseId, a: Actor)
    requires ExecutionGate(s, c) && CompleteRefusal(s, t, c, a).None?
    ensures ExecutionGate(ExecutionDone(s, t, c), c)
  {
    if s.executions[c].status != Finished {
      var marked, s' := MarkFinished(s, t, c), ExecutionDone(s, t, c);
      assert HasRound(s', t, c) by {
        if HasOpen(marked, t, c) {
          var i :| 0 <= i < |marked.rounds| && IsOpen(marked.rounds[i], t, c);
          assert s'.rounds[i].caseId == c;
        } else {
          assert s'.rounds[|marked.rounds|].caseId == c;
        }
      }
    }
  }

  lemma {:induction false} StepKeepsExecutionGate(s: Store, step: Step, c: CaseId)
    requires ExecutionGate(s, c)
    ensures ExecutionGate(Apply(s, step), c)
  {
    match step
    case StartExecution(t, d, a) => CreationKeepsGate(s, step, c);
    case RecordDelivery(t, d) => CreationKeepsGate(s, step, c);
    case CompleteExecution(t, d, a) => CompleteStepKeepsGate(s, t, d, a, c);
    case CompleteMilestone(t, d, i) => MilestoneStepKeepsGate(s, t, d, i, c);
    case _ =>
      StepGrows(s, step);
      OthersLeaveExecutions(s, step);
      hide Apply, ExecutionGate;
      UntouchedExecution(s, Apply(s, step), c);
  }

  lemma {:induction false} CreationKeepsGate(s: Store, step: Step, c: CaseId)
    requires ExecutionGate(s, c) && (step.StartExecution? || step.RecordDelivery?)
    ensures ExecutionGate(Apply(s, step), c)
  {
    SeededIsOpen();
    StepGrows(s, step);
    hide ExecutionGate, StartRefusal, Seeded;
    var s' := Apply(s, step);
    if c in s'.executions && c !in s.executions { NewExecutionGate(s', c); } else { UntouchedExecution(s, s', c); }
  }

  lemma {:induction false} CompleteStepKeepsGate(s: Store, t: TenantId, d: CaseId, a: Actor, c: CaseId)
    requires ExecutionGate(s, c)
    ensures ExecutionGate(Apply(s, CompleteExecution(t, d, a)), c)
  {
    StepGrows(s, CompleteExecution(t, d, a));
    hide ExecutionGate, CompleteRefusal, HasOpen;
    if d == c && CompleteRefusal(s, t, c, a).None? { CompletionKeepsGate(s, t, c, a); }
    else { UntouchedExecution(s, Apply(s, CompleteExecution(t, d, a)), c); }
  }

  lemma {:induction false} MilestoneStepKeepsGate(s: Store, t: TenantId, d: CaseId, i: nat, c: CaseId)
    requires ExecutionGate(s, c)
    ensures ExecutionGate(Apply(s, CompleteMilestone(t, d, i)), c)
  {
    StepGrows(s, CompleteMilestone(t, d, i));
    hide ExecutionGate, MilestoneRefusal, Complete;
    if d == c && MilestoneRefusal(s, t, c, i).None? { MilestoneKeepsGate(s, t, c, i); }
    else { UntouchedExecution(s, Apply(s, CompleteMilestone(t, d, i)), c); }
  }

  lemma {:induction false} NewExecutionGate(s: Store, c: CaseId)
    requires c in s.executions
    requires
      var e := s.executions[c];
      (e.status == InProgress && e.milestones == SEEDED) || (e.status == Created && e.milestones == [])
    ensures ExecutionGate(s, c)
  {
    SeededIsOpen();
  }

  // ---- Payouts ----

  lemma {:induction false} StepKeepsPayoutGate(s: Store, step: Step, c: CaseId)
    requires PayoutGate(s, c)
    ensures PayoutGate(Apply(s, step), c)
  {
    match step
    case Authorize(_, d, amount, _, _) =>
      if amount.Some? { CentsAreNearest(amount.value); }
      hide HasConsensus, IsLatestConsensus, ToCents;
    case Settle(_, _, _, _) =>
    case _ =>
      OrdinaryStep(s, step);
      hide Apply;
  }

  // ---- Main result ----

  /** In every reachable store: a case at EXECUTING or beyond has an execution; an execution is closed
      exactly when all its milestones are done or, failing that, through the evidence gate, which leaves
      a verification round behind; and no payout is negative. */
  lemma {:induction false} GuardsHoldForever(steps: seq<Step>, c: CaseId)
    ensures
      var s := Run(EMPTY_STORE, steps);
      CaseGate(s, c) && ExecutionGate(s, c) && PayoutGate(s, c)
  {
    if steps != [] {
      var before, last := steps[..|steps| - 1], steps[|steps| - 1];
      GuardsHoldForever(before, c);
      var s := Run(EMPTY_STORE, before);
      StepKeepsCaseGate(s, last, c);
      StepKeepsExecutionGate(s, last, c);
      StepKeepsPayoutGate(s, last, c);
      hide CaseGate, ExecutionGate, PayoutGate, Apply;
    }
  }

  /** Over runs the view shows the stored status of an execution exactly when it has milestones and was not
      closed ahead of them: a created execution is shown as in progress, and so is one that the evidence
      gate closed early. */
  lemma {:induction false} ViewShowsStoredStatus(steps: seq<Step>, c: CaseId)
    requires c in Run(EMPTY_STORE, steps).executions
    ensures
      var e := Run(EMPTY_STORE, steps).executions[c];
      && TotalWeight(e.milestones) >= 0
      && (DerivedStatus(e.milestones) == e.status <==>
          e.milestones != [] && (e.status == Finished ==> AllCompleted(e.milestones)))
  {
    GuardsHoldForever(steps, c);
    hide Run;
    var ms := Run(EMPTY_STORE, steps).executions[c].milestones;
    if ms != [] {
      SeededFacts(ms);
      DerivedStatusAgrees(ms);
    }
  }

  // ---- When closing an execution opens verification ----

  lemma {:induction false} CompletionOpens(s: Store, t: TenantId, c: CaseId, a: Actor)
    requires CompleteRefusal(s, t, c, a).None? && s.executions[c].status != Finished
    ensures HasOpen(ExecutionDone(s, t, c), t, c) && HasRound(ExecutionDone(s, t, c), t, c)
  {
    var marked, s' := MarkFinished(s, t, c), ExecutionDone(s, t, c);
    if HasOpen(marked, t, c) {
      var i :| 0 <= i < |marked.rounds| && IsOpen(marked.rounds[i], t, c);
      assert s' == marked && s'.rounds[i].caseId == c;
    } else {
      assert IsOpen(s'.rounds[|marked.rounds|], t, c);
    }
  }

  /** Whatever step closes an execution: verification is open afterwards if and only if the step completed
      the execution as such, or verification was open already. Milestones never open it. */
  lemma {:induction false} ClosingOpensVerificationIff(s: Store, step: Step, c: CaseId)
    requires c in s.executions && s.executions[c].status != Finished
    requires c in Apply(s, step).executions && Apply(s, step).executions[c].status == Finished
    ensures
      var (t, s') := (s.executions[c].tenantId, Apply(s, step));
      && (HasOpen(s', t, c) <==> step.CompleteExecution? || HasOpen(s, t, c))
      && (HasRound(s', t, c) <==> step.CompleteExecution? || HasRound(s, t, c))
  {
    match step
    case CompleteExecution(t, d, a) =>
      hide ExecutionDone, HasOpen, HasRound, CompleteRefusal;
      if CompleteRefusal(s, t, d, a).None? {
        assert t == s.executions[d].tenantId by { CompleteNeedsTenant(s, t, d, a); }
        if s.executions[d].status != Finished { CompletionOpens(s, t, d, a); }
        if c != d { OnlyItsOwn(s, t, d, a, c); }
      }
    case CompleteMilestone(t, d, i) =>
      hide Complete, MilestoneRefusal;
      assert Apply(s, step).rounds == s.rounds;
    case StartExecution(_, _, _) =>
    case RecordDelivery(_, _) =>
    case _ => OthersLeaveExecutions(s, step);
  }

  lemma {:induction false} CompleteNeedsTenant(s: Store, t: TenantId, c: CaseId, a: Actor)
    requires CompleteRefusal(s, t, c, a).None?
    ensures c in s.executions && t == s.executions[c].tenantId
  {
  }

  lemma {:induction false} OnlyItsOwn(s: Store, t: TenantId, d: CaseId, a: Actor, c: CaseId)
    requires CompleteRefusal(s, t, d, a).None? && c in s.executions && c != d
    ensures c in ExecutionDone(s, t, d).executions && ExecutionDone(s, t, d).executions[c] == s.executions[c]
  {
    hide HasOpen;
  }

  /** An execution with these milestones, without evidence or any round; closed once they are all done. */
  predicate Working(s: Store, t: TenantId, c: CaseId, ms: seq<Milestone>) {
    && ExecutionIn(s, t, c) && ExecutionGate(s, c) && s.executions[c].milestones == ms
    && ms != [] && (s.executions[c].status == Finished <==> AllCompleted(ms))
    && s.rounds == [] && c !in s.evidence
  }

  function Done(m: Milestone): Milestone {
    m.(completed := true)
  }

  lemma {:induction false} WorkingStarts(t: TenantId, c: CaseId)
    ensures Working(Apply(Apply(EMPTY_STORE, CreateCase(t, c)), StartExecution(t, c, Officer())), t, c, SEEDED)
  {
    NewExecutionGate(Apply(Apply(EMPTY_STORE, CreateCase(t, c)), StartExecution(t, c, Officer())), c);
    SeededIsOpen();
  }

  lemma {:induction false} MilestoneStep(s: Store, t: TenantId, c: CaseId, ms: seq<Milestone>, i: nat)
    requires Working(s, t, c, ms) && i < |ms| && !ms[i].completed
    ensures Working(Apply(s, CompleteMilestone(t, c, i)), t, c, ms[i := Done(ms[i])])
  {
    SeededFacts(ms);
    MarkOne(s.executions[c], i);
    WeightsDecide(Mark(s.executions[c], i).milestones);
    StepKeepsExecutionGate(s, CompleteMilestone(t, c, i), c);
    hide TotalWeight, CompletedWeight;
  }

  lemma {:induction false} NothingLeftToComplete(s: Store, t: TenantId, c: CaseId, ms: seq<Milestone>, a: Actor)
    requires Working(s, t, c, ms) && AllCompleted(ms)
    ensures CompletedIn(s, t, c) && !HasRound(s, t, c) && c !in s.evidence
    ensures Apply(s, CompleteExecution(t, c, a)) == s
  {
  }

  /** The negative side is reached: every case has a run in which milestones close its execution without
      evidence and without any round, and completing that execution afterwards still opens none. */
  lemma {:induction false} MilestonesSkipVerification(t: TenantId, c: CaseId, a: Actor) returns (steps: seq<Step>)
    ensures
      var s := Run(EMPTY_STORE, steps);
      && CompletedIn(s, t, c) && !HasRound(s, t, c) && c !in s.evidence
      && Apply(s, CompleteExecution(t, c, a)) == s
  {
    assert Run(EMPTY_STORE, []) == EMPTY_STORE;
    var ms1 := SEEDED[0 := Done(SEEDED[0])];
    var ms2 := ms1[1 := Done(ms1[1])];
    var ms3 := ms2[2 := Done(ms2[2])];
    assert AllCompleted(ms3) && !ms1[1].completed && !ms2[2].completed;
    hide *;
    WorkingStarts(t, c);
    var s1 := Apply(EMPTY_STORE, CreateCase(t, c));
    var s2 := Apply(s1, StartExecution(t, c, Officer()));
    MilestoneStep(s2, t, c, SEEDED, 0);
    var s3 := Apply(s2, CompleteMilestone(t, c, 0));
    MilestoneStep(s3, t, c, ms1, 1);
    var s4 := Apply(s3, CompleteMilestone(t, c, 1));
    MilestoneStep(s4, t, c, ms2, 2);
    var s5 := Apply(s4, CompleteMilestone(t, c, 2));
    NothingLeftToComplete(s5, t, c, ms3, a);
    steps := Continue([], CreateCase(t, c), s1);
    steps := Continue(steps, StartExecution(t, c, Officer()), s2);
    steps := Continue(steps, CompleteMilestone(t, c, 0), s3);
    steps := Continue(steps, CompleteMilestone(t, c, 1), s4);
    steps := Continue(steps, CompleteMilestone(t, c, 2), s5);
  }
}
