/** Runs of all services with lifecycle reconciliation among them: a repair rewrites a lifecycle without asking
    anybody, and what the runs promise about rounds, decisions and payouts holds all the same. */
module GovernanceRepairs {
  import opened Common
  import opened CaseLifecycle
  import opened GovernanceStore
  import opened GovernanceRuns
  import opened GovernanceGates
  import opened Reconciliation
  import GovernanceDrift
  import GovernanceAnswers
  import Ledger

  type UserId = Ledger.UserId

  /** A call of a service, or the repair of one case; a sweep of a tenant repairs its cases one by one. */
  datatype Action = Call(step: Step) | Reconcile(t: TenantId, c: CaseId)

  function Act(s: Store, action: Action): Store {
    match action
    case Call(step) => Apply(s, step)
    case Reconcile(t, c) => if CaseIn(s, t, c) then Repaired(s, t, c) else s
  }

  function RunAll(s: Store, actions: seq<Action>): Store {
    if actions == [] then s else Act(RunAll(s, actions[..|actions| - 1]), actions[|actions| - 1])
  }

  lemma {:induction false} RunAllSnoc(s: Store, actions: seq<Action>, action: Action)
    ensures RunAll(s, actions + [action]) == Act(RunAll(s, actions), action)
  {
    hide Act;
    assert (actions + [action])[..|actions|] == actions;
  }

  function Calls(steps: seq<Step>): (r: seq<Action>)
    ensures |r| == |steps|
  {
    seq(|steps|, i requires 0 <= i < |steps| => Call(steps[i]))
  }

  /** The runs without repairs are among these. */
  lemma {:induction false} RunsAreAmongThese(s: Store, steps: seq<Step>)
    ensures RunAll(s, Calls(steps)) == Run(s, steps)
  {
    if steps != [] {
      RunsAreAmongThese(s, steps[..|steps| - 1]);
      assert Calls(steps)[..|steps| - 1] == Calls(steps[..|steps| - 1]);
      hide Apply;
    }
  }

  /** What a repair touches: one lifecycle and the ledger. */
  lemma {:induction false} RepairFrame(s: Store, t: TenantId, c: CaseId)
    requires CaseIn(s, t, c)
    ensures
      var s' := Repaired(s, t, c);
      && s' == s.(cases := s'.cases, ledger := s'.ledger) && RowsKept(s, s') && RoundsGrow(s, s')
      && s'.cases == s.cases[c := s.cases[c].(lifecycle := Derived(s, t, c))]
      && (s'.ledger == s.ledger || s'.ledger == s.ledger + [Fact(t, c, LifecycleRepaired)])
  {
    RepairedRows(s, t, c);
    hide Derived;
  }

  lemma {:induction false} RepairKeepsSound(s: Store, t: TenantId, c: CaseId)
    requires Sound(s) && CaseIn(s, t, c)
    ensures Sound(Repaired(s, t, c))
  {
    var s' := Repaired(s, t, c);
    RepairFrame(s, t, c);
    SameRoundsSound(s, s');
    forall d ensures PayOk(s', d) {
      assert PayOk(s, d);
      PayEventsSnoc(s.ledger, Fact(t, c, LifecycleRepaired), d);
      hide PayOk, PayEvents, Repaired;
      PayKept(s, s', d);
    }
    hide Repaired, RoundsSound, PayOk, DecisionsOk, RoundsGrow;
  }

  lemma {:induction false} ActKeepsSound(s: Store, action: Action)
    requires Sound(s)
    ensures Sound(Act(s, action))
  {
    hide Sound, Apply, Repaired;
    match action
    case Call(step) => StepKeepsSound(s, step);
    case Reconcile(t, c) => if CaseIn(s, t, c) { RepairKeepsSound(s, t, c); }
  }

  lemma {:induction false} RunKeepsSound(s: Store, actions: seq<Action>)
    requires Sound(s)
    ensures Sound(RunAll(s, actions))
  {
    if actions != [] {
      hide Sound, Act;
      RunKeepsSound(s, actions[..|actions| - 1]);
      ActKeepsSound(RunAll(s, actions[..|actions| - 1]), actions[|actions| - 1]);
    }
  }

  lemma {:induction false} EmptyStoreIsSound()
    ensures Sound(EMPTY_STORE)
  {
    EmptyStoreOk();
  }

  // ---- Main results ----

  /** No payout without quorum, in every run of all services and repairs. */
  lemma {:induction false} NoPayoutWithoutQuorum(actions: seq<Action>, c: CaseId)
    ensures PaidOnQuorum(RunAll(EMPTY_STORE, actions), c)
  {
    EmptyStoreIsSound();
    RunKeepsSound(EMPTY_STORE, actions);
    hide RunAll, PaidOnQuorum, Sound;
    SoundPays(RunAll(EMPTY_STORE, actions), c);
  }

  lemma {:induction false} ActGrows(s: Store, action: Action)
    ensures RowsKept(s, Act(s, action)) && RoundsGrow(s, Act(s, action))
  {
    match action
    case Call(step) => StepGrows(s, step); hide Apply;
    case Reconcile(t, c) =>
      if CaseIn(s, t, c) { RepairFrame(s, t, c); }
      hide Repaired;
  }

  lemma {:induction false} RunAllGrows(s: Store, actions: seq<Action>)
    ensures RowsKept(s, RunAll(s, actions)) && RoundsGrow(s, RunAll(s, actions))
  {
    if actions != [] {
      RunAllGrows(s, actions[..|actions| - 1]);
      ActGrows(RunAll(s, actions[..|actions| - 1]), actions[|actions| - 1]);
      hide Act;
    }
  }

  /** Repairs leave rounds alone: at most one is open per tenant and case, and however the run goes on a
      finalized one never changes again. */
  lemma {:induction false} RoundsSurviveRepairs(actions: seq<Action>, more: seq<Action>)
    ensures
      var (s, s') := (RunAll(EMPTY_STORE, actions), RunAll(RunAll(EMPTY_STORE, actions), more));
      && (forall i, j :: 0 <= i < j < |s.rounds| ==> NotBothOpen(s.rounds[i], s.rounds[j]))
      && (forall i :: 0 <= i < |s.rounds| && s.rounds[i].consensusReached ==>
        i < |s'.rounds| && s'.rounds[i] == s.rounds[i])
  {
    EmptyStoreIsSound();
    RunKeepsSound(EMPTY_STORE, actions);
    RunAllGrows(RunAll(EMPTY_STORE, actions), more);
    hide RunAll, RowsKept, NotBothOpen, RoundSound;
  }

  /** A verified case leaves VERIFIED and COMPLETED behind if and only if a repair takes it where replay
      of its ledger says something else. */
  lemma {:induction false} LeavesVerifiedIff(s: Store, action: Action, c: CaseId)
    requires c in s.cases && s.cases[c].lifecycle in VERIFIED_STATES
    ensures
      var s' := Act(s, action);
      && c in s'.cases
      && (s'.cases[c].lifecycle !in VERIFIED_STATES
          <==> action == Reconcile(s.cases[c].tenantId, c) && Derived(s, s.cases[c].tenantId, c) != Verified)
  {
    match action
    case Call(step) => StepGrows(s, step); hide Apply;
    case Reconcile(t, d) =>
      if CaseIn(s, t, d) { RepairFrame(s, t, d); }
      ReplayNeverSaysCompleted(s, s.cases[c].tenantId, c);
      hide Repaired, Derived;
  }

  lemma {:induction false} ReplayNeverSaysCompleted(s: Store, t: TenantId, c: CaseId)
    ensures Derived(s, t, c) != Completed
  {
    GovernanceDrift.DerivedIsSayable(s, t, c);
  }

  // ---- Decisions over runs ----

  /** After any run, repairs included, at most one decision per (tenant, case, type) is active, namely the
      latest, and an explicit supersession names the decision active just before; continuing the run only
      appends decisions and sets open superseding times. */
  lemma {:induction false} DecisionHistory(actions: seq<Action>, more: seq<Action>)
    ensures
      var (s, s') := (RunAll(EMPTY_STORE, actions), RunAll(RunAll(EMPTY_STORE, actions), more));
      && DecisionsOk(s.decisions) && HistoryGrows(s.decisions, s'.decisions)
      && forall i, j :: 0 <= i < j < |s.decisions| ==>
           !(SameSubject(s.decisions[i], s.decisions[j])
             && s.decisions[i].supersededAt.None? && s.decisions[j].supersededAt.None?)
  {
    EmptyStoreIsSound();
    RunKeepsSound(EMPTY_STORE, actions);
    RunGrowsHistory(RunAll(EMPTY_STORE, actions), more);
    hide RunAll, RoundsSound, RowsOk, PayOk;
  }

  lemma {:induction false} RunGrowsHistory(s: Store, more: seq<Action>)
    requires Sound(s)
    ensures HistoryGrows(s.decisions, RunAll(s, more).decisions)
  {
    if more != [] {
      var mid := RunAll(s, more[..|more| - 1]);
      RunGrowsHistory(s, more[..|more| - 1]);
      RunKeepsSound(s, more[..|more| - 1]);
      ActGrowsHistory(mid, more[|more| - 1]);
      hide Act, Sound;
    }
  }

  lemma {:induction false} ActGrowsHistory(s: Store, action: Action)
    requires Sound(s)
    ensures HistoryGrows(s.decisions, Act(s, action).decisions)
  {
    match action
    case Call(step) =>
      StepKeepsDecisions(s, step);
      hide Apply;
    case Reconcile(t, c) =>
      if CaseIn(s, t, c) { RepairFrame(s, t, c); }
      hide Repaired;
  }

  // ---- Cases created at intake ----

  lemma {:induction false} ActKeepsStuck(s: Store, action: Action, c: CaseId, stuck: nat)
    requires Stuck(s, c, stuck) && Sound(s)
    ensures Stuck(Act(s, action), c, stuck)
  {
    match action
    case Call(step) =>
      hide Apply, Stuck, PayOk;
      StepKeepsStuck(s, step, c, stuck);
    case Reconcile(t, d) =>
      if CaseIn(s, t, d) { RepairFrame(s, t, d); }
      hide Repaired, Sound;
  }

  lemma {:induction false} RunKeepsStuck(s: Store, actions: seq<Action>, c: CaseId, stuck: nat)
    requires Stuck(s, c, stuck) && Sound(s)
    ensures Stuck(RunAll(s, actions), c, stuck)
  {
    if actions != [] {
      hide Act, Stuck, Sound;
      RunKeepsStuck(s, actions[..|actions| - 1], c, stuck);
      RunKeepsSound(s, actions[..|actions| - 1]);
      ActKeepsStuck(RunAll(s, actions[..|actions| - 1]), actions[|actions| - 1], c, stuck);
    }
  }

  /** The round opened at intake asks for no role, so it never accepts a vote; being open it keeps every
      other round of the case from being created. A case created at intake therefore never reaches
      consensus and is never paid, in any run, repairs included. */
  lemma {:induction false} IntakeCasesAreNeverPaid(before: seq<Action>, t: TenantId, c: CaseId, after: seq<Action>)
    requires c !in RunAll(EMPTY_STORE, before).cases
    ensures
      var s := RunAll(Apply(RunAll(EMPTY_STORE, before), IntakeBootstrap(t, c)), after);
      && c !in s.disbursements
      && (forall i :: 0 <= i < |s.rounds| && s.rounds[i].caseId == c ==> !s.rounds[i].consensusReached)
      && (exists i :: 0 <= i < |s.rounds| && s.rounds[i] == NewRound(t, c, 2, {}))
  {
    var s0 := RunAll(EMPTY_STORE, before);
    var s1 := Apply(s0, IntakeBootstrap(t, c));
    hide RunAll, Apply;
    EmptyStoreIsSound();
    RunKeepsSound(EMPTY_STORE, before);
    StepKeepsSound(s0, IntakeBootstrap(t, c));
    IntakeIsStuck(s0, t, c);
    RunKeepsStuck(s1, after, c, |s0.rounds|);
    RunKeepsSound(s1, after);
    RunAllGrows(s1, after);
    StuckIsNeverPaid(RunAll(s1, after), c, |s0.rounds|);
    hide Sound, RoundsGrow;
  }

  // ---- Guards ----

  /** Executions and amounts keep their guards under repairs as well. */
  lemma {:induction false} GuardsSurviveRepairs(actions: seq<Action>, c: CaseId)
    ensures
      var s := RunAll(EMPTY_STORE, actions);
      ExecutionGate(s, c) && PayoutGate(s, c)
  {
    if actions != [] {
      GuardsSurviveRepairs(actions[..|actions| - 1], c);
      ActKeepsGuards(RunAll(EMPTY_STORE, actions[..|actions| - 1]), actions[|actions| - 1], c);
      hide Act, ExecutionGate, PayoutGate;
    }
  }

  lemma {:induction false} ActKeepsGuards(s: Store, action: Action, c: CaseId)
    requires ExecutionGate(s, c) && PayoutGate(s, c)
    ensures ExecutionGate(Act(s, action), c) && PayoutGate(Act(s, action), c)
  {
    match action
    case Call(step) =>
      hide Apply, ExecutionGate, PayoutGate;
      StepKeepsExecutionGate(s, step, c);
      StepKeepsPayoutGate(s, step, c);
    case Reconcile(t, d) =>
      hide Repaired, ExecutionGate;
      if CaseIn(s, t, d) {
        RepairFrame(s, t, d);
        UntouchedExecution(s, Repaired(s, t, d), c);
      }
  }

  // ---- Payouts over runs ----

  /** A disbursement that exists is only ever settled: its amount, tenant and round stay, and so does its
      outcome. */
  predicate OnlySettled(s: Store, s': Store, c: CaseId) {
    c in s.disbursements ==>
      && c in s'.disbursements
      && s'.disbursements[c] == s.disbursements[c].(status := s'.disbursements[c].status)
      && (s.disbursements[c].status != Authorized ==> s'.disbursements[c] == s.disbursements[c])
  }

  predicate IsSettle(action: Action, c: CaseId) {
    action.Call? && action.step.Settle? && action.step.c == c
  }

  lemma {:induction false} ActOnlySettles(s: Store, action: Action, c: CaseId)
    ensures OnlySettled(s, Act(s, action), c)
    ensures c in s.disbursements && Act(s, action).disbursements[c] != s.disbursements[c] ==>
              IsSettle(action, c)
              && Act(s, action).disbursements[c].status == if action.step.success then Paid else Failed
    ensures c !in s.disbursements && c in Act(s, action).disbursements ==>
              Act(s, action).disbursements[c].status == Authorized
  {
    match action
    case Call(step) =>
      match step {
        case Authorize(t, d, amount, a, id) =>
          GovernanceAnswers.AuthorizeAnswer(s, t, d, amount, a, id);
          hide Apply, GovernanceAnswers.LatestAgreement;
        case Settle(t, d, a, success) =>
          GovernanceAnswers.SettleAnswer(s, t, d, a, success);
          hide Apply;
        case _ =>
          OrdinaryStep(s, step);
          hide Apply;
      }
    case Reconcile(t, d) =>
      if CaseIn(s, t, d) { RepairFrame(s, t, d); }
      hide Repaired;
  }

  /** What is authorised is what is settled: whatever happens later, repairs included, changes neither the
      amount nor the tenant nor the round of a disbursement, and an outcome is never changed again. */
  lemma {:induction false} DisbursementsStay(s: Store, more: seq<Action>, c: CaseId)
    ensures OnlySettled(s, RunAll(s, more), c)
  {
    if more != [] {
      DisbursementsStay(s, more[..|more| - 1], c);
      ActOnlySettles(RunAll(s, more[..|more| - 1]), more[|more| - 1], c);
      hide Act;
    }
  }

  /** Action `k` of the run settles the disbursement of the case. */
  predicate TakesEffect(actions: seq<Action>, k: nat, c: CaseId)
    requires k < |actions|
  {
    var s, s' := RunAll(EMPTY_STORE, actions[..k]), RunAll(EMPTY_STORE, actions[..k + 1]);
    && c in s.disbursements && s.disbursements[c].status == Authorized
    && c in s'.disbursements && s'.disbursements[c].status != Authorized
  }

  lemma {:induction false} SplitRun(s: Store, a: seq<Action>, b: seq<Action>)
    ensures RunAll(s, a + b) == RunAll(RunAll(s, a), b)
    decreases |b|
  {
    hide Act;
    if b == [] {
      assert a + b == a;
    } else {
      SplitRun(s, a, b[..|b| - 1]);
      assert (a + b)[..|a + b| - 1] == a + b[..|b| - 1];
    }
  }

  lemma {:induction false} EffectIsReported(actions: seq<Action>, k: nat, c: CaseId)
    requires k < |actions| && TakesEffect(actions, k, c)
    ensures IsSettle(actions[k], c)
    ensures
      var s := RunAll(EMPTY_STORE, actions);
      c in s.disbursements && s.disbursements[c].status == if actions[k].step.success then Paid else Failed
  {
    var s := RunAll(EMPTY_STORE, actions[..k]);
    assert actions[..k + 1] == actions[..k] + [actions[k]];
    RunAllSnoc(EMPTY_STORE, actions[..k], actions[k]);
    ActOnlySettles(s, actions[k], c);
    assert actions == actions[..k + 1] + actions[k + 1..];
    SplitRun(EMPTY_STORE, actions[..k + 1], actions[k + 1..]);
    DisbursementsStay(RunAll(EMPTY_STORE, actions[..k + 1]), actions[k + 1..], c);
    hide RunAll, Act;
  }

  /** Only one action ever settles it. */
  lemma {:induction false} OneTakesEffect(actions: seq<Action>, j: nat, k: nat, c: CaseId)
    requires j < k < |actions| && TakesEffect(actions, j, c)
    ensures !TakesEffect(actions, k, c)
  {
    assert actions[..k] == actions[..j + 1] + actions[j + 1..k];
    SplitRun(EMPTY_STORE, actions[..j + 1], actions[j + 1..k]);
    DisbursementsStay(RunAll(EMPTY_STORE, actions[..j + 1]), actions[j + 1..k], c);
    hide RunAll;
  }

  lemma {:induction false} SomethingTookEffect(actions: seq<Action>, c: CaseId) returns (k: nat)
    requires c in RunAll(EMPTY_STORE, actions).disbursements
    requires RunAll(EMPTY_STORE, actions).disbursements[c].status != Authorized
    ensures k < |actions| && TakesEffect(actions, k, c)
  {
    var n := |actions| - 1;
    var before := RunAll(EMPTY_STORE, actions[..n]);
    ActOnlySettles(before, actions[n], c);
    hide Act;
    assert actions[..n + 1] == actions;
    if c in before.disbursements && before.disbursements[c].status != Authorized {
      k := SomethingTookEffect(actions[..n], c);
      assert actions[..n][..k] == actions[..k] && actions[..n][..k + 1] == actions[..k + 1];
    } else {
      k := n;
    }
  }

  /** Over every run, repairs included: a disbursement is paid exactly if the one settlement that took effect
      on it reported success, failed exactly if that reported failure, and authorised exactly as long as none
      has taken effect. */
  lemma {:induction false} OutcomeIsReported(actions: seq<Action>, c: CaseId)
    requires c in RunAll(EMPTY_STORE, actions).disbursements
    ensures
      var status := RunAll(EMPTY_STORE, actions).disbursements[c].status;
      && (status == Paid <==>
            exists k :: 0 <= k < |actions| && TakesEffect(actions, k, c) && Reports(actions[k], c, true))
      && (status == Failed <==>
            exists k :: 0 <= k < |actions| && TakesEffect(actions, k, c) && Reports(actions[k], c, false))
      && (status == Authorized <==> forall k :: 0 <= k < |actions| ==> !TakesEffect(actions, k, c))
  {
    hide RunAll, TakesEffect, Reports;
    if RunAll(EMPTY_STORE, actions).disbursements[c].status != Authorized {
      var k := SomethingTookEffect(actions, c);
      StatusIsReport(actions, k, c);
    }
    forall k: nat | k < |actions| && TakesEffect(actions, k, c)
      ensures
        var status := RunAll(EMPTY_STORE, actions).disbursements[c].status;
        && (status == Paid || status == Failed)
        && (Reports(actions[k], c, true) <==> status == Paid) && (Reports(actions[k], c, false) <==> status == Failed)
    {
      StatusIsReport(actions, k, c);
    }
  }

  /** The action is a settlement of the case that reports this outcome. */
  predicate Reports(action: Action, c: CaseId, success: bool) {
    IsSettle(action, c) && action.step.success == success
  }

  lemma {:induction false} StatusIsReport(actions: seq<Action>, k: nat, c: CaseId)
    requires k < |actions| && TakesEffect(actions, k, c)
    ensures c in RunAll(EMPTY_STORE, actions).disbursements
    ensures
      var status := RunAll(EMPTY_STORE, actions).disbursements[c].status;
      && (status == Paid || status == Failed)
      && (Reports(actions[k], c, true) <==> status == Paid) && (Reports(actions[k], c, false) <==> status == Failed)
  {
    EffectIsReported(actions, k, c);
    hide RunAll, TakesEffect;
  }

  // ---- What repairs do take away ----

  lemma {:induction false} Extend(actions: seq<Action>, action: Action, after: Store) returns (longer: seq<Action>)
    requires after == Act(RunAll(EMPTY_STORE, actions), action)
    ensures longer == actions + [action] && RunAll(EMPTY_STORE, longer) == after
  {
    RunAllSnoc(EMPTY_STORE, actions, action);
    longer := actions + [action];
  }

  /** Verified once, then delivered to and repaired: back at EXECUTING with its consensus. */
  lemma {:induction false} RepairTakesBack(s: Store, t: TenantId, c: CaseId, u: UserId)
    requires Agreed(s, t, c, u)
    ensures
      var s1 := Apply(s, RecordDelivery(t, c));
      var s2 := Act(s1, Reconcile(t, c));
      s2 == s.(cases := s.cases[c := s.cases[c].(lifecycle := Executing)], ledger := s2.ledger)
  {
    var s1 := Apply(s, RecordDelivery(t, c));
    GovernanceDrift.DeliverySaysExecuting(s, t, c);
    assert s1 == s.(ledger := s1.ledger);
    assert CaseIn(s1, t, c);
    RepairFrame(s1, t, c);
    hide Apply, Repaired, Derived;
  }

  lemma {:induction false} SecondRoundAgrees(s: Store, t: TenantId, c: CaseId, u: UserId)
    requires CaseIn(s, t, c) && s.cases[c].lifecycle == Executing && CompletedIn(s, t, c)
    requires (u, t, "VERIFIER") in s.userRoles && |s.rounds| == 1 && IsConsensusOf(s.rounds[0], c)
    ensures
      var s' := Apply(Apply(s, RequestRound(t, c, 1, {"VERIFIER"})), CastVote(1, Vote(u, Approved), 3));
      && |s'.rounds| == 2 && IsConsensusOf(s'.rounds[0], c) && IsConsensusOf(s'.rounds[1], c)
      && s'.rounds[1].tenantId == t && CaseIn(s', t, c) && s'.cases[c].lifecycle == Verified
  {
    var s1 := Apply(s, RequestRound(t, c, 1, {"VERIFIER"}));
    assert s1.rounds[1] == NewRound(t, c, 1, {"VERIFIER"});
    assert "VERIFIER" in s1.rounds[1].requiredRoles;
    assert Approvals([Vote(u, Approved)]) == 1 by { assert [Vote(u, Approved)][..0] == []; }
    assert s1.rounds[1].votes + [Vote(u, Approved)] == [Vote(u, Approved)];
    assert Edge(Executing, Verified);
    hide Decided, Approvals, HasOpen, Edge;
  }

  /** Under repairs consensus is not for ever, and a case can reach it twice: every bare case has a run that
      takes it from a consensus back to EXECUTING, and on to a second consensus. */
  lemma {:induction false} RepairReopensConsensus(t: TenantId, c: CaseId, u: UserId, w: UserId)
    returns (back: seq<Action>, again: seq<Action>)
    requires u != w
    ensures
      var s := RunAll(EMPTY_STORE, back);
      && CaseIn(s, t, c) && s.cases[c].lifecycle == Executing && |s.rounds| == 1 && IsConsensusOf(s.rounds[0], c)
    ensures back <= again
    ensures
      var s := RunAll(EMPTY_STORE, again);
      |s.rounds| == 2 && IsConsensusOf(s.rounds[0], c) && IsConsensusOf(s.rounds[1], c)
  {
    var steps := AgreementIsReachable(t, c, u, w);
    RunsAreAmongThese(EMPTY_STORE, steps);
    var s0 := RunAll(EMPTY_STORE, Calls(steps));
    hide RunAll, Apply, Repaired;
    RepairTakesBack(s0, t, c, u);
    var s1 := Apply(s0, RecordDelivery(t, c));
    var s2 := Act(s1, Reconcile(t, c));
    back := Extend(Calls(steps), Call(RecordDelivery(t, c)), s1);
    back := Extend(back, Reconcile(t, c), s2);
    SecondRoundAgrees(s2, t, c, u);
    var s3 := Apply(s2, RequestRound(t, c, 1, {"VERIFIER"}));
    again := Extend(back, Call(RequestRound(t, c, 1, {"VERIFIER"})), s3);
    again := Extend(again, Call(CastVote(1, Vote(u, Approved), 3)), Apply(s3, CastVote(1, Vote(u, Approved), 3)));
  }
}
