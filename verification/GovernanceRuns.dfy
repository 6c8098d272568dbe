/** All services over one store, in any order and with any arguments: what every run keeps. */
module GovernanceRuns {
  import opened Common
  import opened CaseLifecycle
  import opened ExecutionProgress
  import opened Ledger
  import opened GovernanceStore

  /** One call of one service, or a change made outside the modelled code. Intake creates cases together
      with a verification round; `CreateCase` is a bare case row, as the repository's mock engine makes it. */
  datatype Step =
    | CreateCase(t: TenantId, c: CaseId)
    | IntakeBootstrap(t: TenantId, c: CaseId)
    | ArchiveCase(c: CaseId)
    | AddEvidence(c: CaseId)
    | ConfigureRole(t: TenantId, k: RoleKey)
    | RegisterUser(t: TenantId, email: Email, u: UserId)
    | GrantRole(u: UserId, t: TenantId, k: RoleKey)
    | RecordOther(t: TenantId, c: CaseId, e: EventType)
    | Transition(t: TenantId, c: CaseId, target: Lifecycle, a: Actor)
    | Decide(q: DecisionRequest, now: int)
    | CastVote(id: nat, v: Vote, now: int)
    | RequestRound(t: TenantId, c: CaseId, required: nat, requiredRoles: set<RoleKey>)
    | StartExecution(t: TenantId, c: CaseId, a: Actor)
    | CompleteExecution(t: TenantId, c: CaseId, a: Actor)
    | CompleteMilestone(t: TenantId, c: CaseId, i: nat)
    | RecordDelivery(t: TenantId, c: CaseId)
    | Authorize(t: TenantId, c: CaseId, amount: Option<real>, a: Actor, latest: nat)
    | Settle(t: TenantId, c: CaseId, a: Actor, success: bool)

  const PAY_EVENTS: set<EventType> := {DisbursementAuthorized, DisbursementCompleted, DisbursementFailed}

  /** A refused call leaves the store as it was. */
  function Apply(s: Store, step: Step): Store {
    match step
    case CreateCase(t, c) =>
      if c in s.cases then s else s.(cases := s.cases[c := CaseRow(t, Intake, false)])
    case IntakeBootstrap(t, c) => if c in s.cases then s else IntakeCase(s, t, c)
    case ArchiveCase(c) => if c in s.cases then s.(cases := s.cases[c := s.cases[c].(archived := true)]) else s
    case AddEvidence(c) => s.(evidence := s.evidence + {c})
    case ConfigureRole(t, k) => s.(roles := s.roles + {(t, k)})
    case RegisterUser(t, email, u) => if (t, email) in s.users then s else s.(users := s.users[(t, email) := u])
    case GrantRole(u, t, k) => s.(userRoles := s.userRoles + {(u, t, k)})
    case RecordOther(t, c, e) => if e in PAY_EVENTS then s else Log(s, t, c, e)
    case Transition(t, c, target, a) =>
      if TransitionRefusal(s, t, c, target, a).Some? then s else Transitioned(s, t, c, target)
    case Decide(q, now) => if DecisionRefusal(s, q).Some? then s else DecisionApplied(s, q, now)
    case CastVote(id, v, now) => if VoteRefusal(s, id, v).Some? then s else Voted(s, id, v, now)
    case RequestRound(t, c, required, requiredRoles) =>
      if required == 0 || RequestRefusal(s, t, c).Some? then s else Requested(s, t, c, required, requiredRoles)
    case StartExecution(t, c, a) => if StartRefusal(s, t, c, a).Some? then s else ExecutionBegun(s, t, c)
    case CompleteExecution(t, c, a) => if CompleteRefusal(s, t, c, a).Some? then s else ExecutionDone(s, t, c)
    case CompleteMilestone(t, c, i) => if MilestoneRefusal(s, t, c, i).Some? then s else MilestoneDone(s, t, c, i)
    case RecordDelivery(t, c) => if DeliveryRefusal(s, t, c).Some? then s else Delivered(s, t, c)
    case Authorize(t, c, amount, a, latest) =>
      if c in s.disbursements || AuthorizeRefusal(s, t, c, amount, a).Some? || !IsLatestConsensus(s, c, latest)
      then s else AuthorizedStore(s, t, c, amount.value, latest)
    case Settle(t, c, a, success) => if ExecuteRefusal(s, c, a).Some? then s else Settled(s, t, c, success)
  }

  function Run(s: Store, steps: seq<Step>): Store {
    if steps == [] then s else Apply(Run(s, steps[..|steps| - 1]), steps[|steps| - 1])
  }

  // ---- What only grows ----

  const VERIFIED_STATES: set<Lifecycle> := {Verified, Completed}

  /** Rows keep their identity, a finished execution stays finished, and roles are only granted. */
  predicate RowsKept(s: Store, s': Store) {
    && (forall c :: c in s.cases ==> c in s'.cases && s'.cases[c].tenantId == s.cases[c].tenantId)
    && (forall c :: c in s.executions ==>
          && c in s'.executions && s'.executions[c].tenantId == s.executions[c].tenantId
          && (s.executions[c].status == Finished ==> s'.executions[c].status == Finished))
    && s.userRoles <= s'.userRoles
  }

  /** Besides, a verified case stays verified. */
  predicate RowsGrow(s: Store, s': Store) {
    && RowsKept(s, s')
    && forall c :: c in s.cases && s.cases[c].lifecycle in VERIFIED_STATES ==> s'.cases[c].lifecycle in VERIFIED_STATES
  }

  /** Rounds keep their identity, and a finalized round never changes again. */
  predicate RoundsGrow(s: Store, s': Store) {
    && |s.rounds| <= |s'.rounds|
    && forall i :: 0 <= i < |s.rounds| ==>
         && s'.rounds[i].tenantId == s.rounds[i].tenantId && s'.rounds[i].caseId == s.rounds[i].caseId
         && s'.rounds[i].requiredVerifiers == s.rounds[i].requiredVerifiers
         && s'.rounds[i].requiredRoles == s.rounds[i].requiredRoles
         && (s.rounds[i].consensusReached ==> s'.rounds[i] == s.rounds[i])
  }

  lemma {:induction false} EdgesOutOfVerified(s: Store, c: CaseId, target: Lifecycle)
    requires c in s.cases
    ensures Edge(s.cases[c].lifecycle, target) && s.cases[c].lifecycle in VERIFIED_STATES ==> target in VERIFIED_STATES
  {
  }

  lemma {:induction false} TransitionGrows(s: Store, t: TenantId, c: CaseId, target: Lifecycle)
    requires CaseIn(s, t, c) && Edge(s.cases[c].lifecycle, target)
    ensures RowsGrow(s, Transitioned(s, t, c, target)) && RoundsGrow(s, Transitioned(s, t, c, target))
  {
    EdgesOutOfVerified(s, c, target);
    hide Edge;
  }

  lemma {:induction false} DecisionGrows(s: Store, q: DecisionRequest, now: int)
    requires q.caseId in s.cases && EffectRefusal(s, q).None?
    ensures RowsGrow(s, DecisionApplied(s, q, now)) && RoundsGrow(s, DecisionApplied(s, q, now))
  {
    if q.effect.ExecutionVerified? {
      TransitionGrows(s.(decisions := Decided(s.decisions, q, now)), q.tenantId, q.caseId, Verified);
    }
    hide Decided;
  }

  lemma {:induction false} VoteGrows(s: Store, id: nat, v: Vote, now: int)
    requires VoteRefusal(s, id, v).None?
    ensures RowsGrow(s, Voted(s, id, v, now)) && RoundsGrow(s, Voted(s, id, v, now))
  {
    var recorded := VoteRecorded(s, id, v);
    if ReachesQuorum(s.rounds[id], v) {
      DecisionGrows(RoundFinalized(recorded, id, now), ConsensusRequest(s.rounds[id], v.verifier), now);
    }
    hide MayVerify, Approvals, HasVoted, Decided;
  }

  lemma {:induction false} StepGrows(s: Store, step: Step)
    ensures RowsGrow(s, Apply(s, step)) && RoundsGrow(s, Apply(s, step))
  {
    NothingGrows(s);
    hide RowsGrow, RoundsGrow, Transitioned, DecisionApplied, Voted, Requested, ExecutionBegun, ExecutionDone,
      MilestoneDone, Delivered, AuthorizedStore, Settled, IntakeCase, Log;
    hide TransitionRefusal, DecisionRefusal, VoteRefusal, RequestRefusal, StartRefusal, CompleteRefusal,
      MilestoneRefusal, DeliveryRefusal, AuthorizeRefusal, ExecuteRefusal, HasOpen, IsLatestConsensus;
    match step
    case Transition(t, c, target, a) =>
      if TransitionRefusal(s, t, c, target, a).None? { AllowedTransitionGrows(s, t, c, target, a); }
    case Decide(q, now) => if DecisionRefusal(s, q).None? { AllowedDecisionGrows(s, q, now); }
    case CastVote(id, v, now) => if VoteRefusal(s, id, v).None? { VoteGrows(s, id, v, now); }
    case RequestRound(t, c, required, requiredRoles) => RequestGrows(s, t, c, required, requiredRoles);
    case StartExecution(t, c, a) => StartGrows(s, t, c);
    case CompleteExecution(t, c, a) => if CompleteRefusal(s, t, c, a).None? { CompletionGrows(s, t, c, a); }
    case CompleteMilestone(t, c, i) => if MilestoneRefusal(s, t, c, i).None? { MilestoneGrows(s, t, c, i); }
    case RecordDelivery(t, c) => DeliveryGrows(s, t, c);
    case Authorize(t, c, amount, a, latest) =>
      if amount.Some? { PaymentGrows(s, t, c, amount.value, latest); } else { NoAmount(s, step); }
    case Settle(t, c, a, success) =>
      if c in s.disbursements { SettleGrows(s, t, c, success); } else { NoDisbursement(s, step); }
    case _ => SetupGrows(s, step);
  }

  lemma {:induction false} NothingGrows(s: Store)
    ensures RowsGrow(s, s) && RoundsGrow(s, s)
  {
  }

  lemma {:induction false} AllowedTransitionGrows(s: Store, t: TenantId, c: CaseId, target: Lifecycle, a: Actor)
    requires TransitionRefusal(s, t, c, target, a).None?
    ensures RowsGrow(s, Transitioned(s, t, c, target)) && RoundsGrow(s, Transitioned(s, t, c, target))
  {
    TransitionGrows(s, t, c, target);
  }

  lemma {:induction false} AllowedDecisionGrows(s: Store, q: DecisionRequest, now: int)
    requires DecisionRefusal(s, q).None?
    ensures RowsGrow(s, DecisionApplied(s, q, now)) && RoundsGrow(s, DecisionApplied(s, q, now))
  {
    hide RowsGrow, RoundsGrow, Decided;
    DecisionGrows(s, q, now);
  }

  lemma {:induction false} NoAmount(s: Store, step: Step)
    requires step.Authorize? && step.amount.None?
    ensures Apply(s, step) == s
  {
    hide HasConsensus, IsLatestConsensus;
  }

  lemma {:induction false} NoDisbursement(s: Store, step: Step)
    requires step.Settle? && step.c !in s.disbursements
    ensures Apply(s, step) == s
  {
  }

  /** Rows nobody else depends on. */
  predicate IsSetup(step: Step) {
    step.CreateCase? || step.IntakeBootstrap? || step.ArchiveCase? || step.AddEvidence? || step.ConfigureRole?
    || step.RegisterUser? || step.GrantRole? || step.RecordOther?
  }

  lemma {:induction false} SetupGrows(s: Store, step: Step)
    requires IsSetup(step)
    ensures RowsGrow(s, Apply(s, step)) && RoundsGrow(s, Apply(s, step))
  {
    if step.CreateCase? || step.IntakeBootstrap? || step.ArchiveCase? {
      CreationGrows(s, step);
    } else {
      GrantGrows(s, step);
    }
    hide Apply, RowsGrow, RoundsGrow;
  }

  lemma {:induction false} CreationGrows(s: Store, step: Step)
    requires step.CreateCase? || step.IntakeBootstrap? || step.ArchiveCase?
    ensures RowsGrow(s, Apply(s, step)) && RoundsGrow(s, Apply(s, step))
  {
  }

  lemma {:induction false} GrantGrows(s: Store, step: Step)
    requires IsSetup(step) && !step.CreateCase? && !step.IntakeBootstrap? && !step.ArchiveCase?
    ensures RowsGrow(s, Apply(s, step)) && RoundsGrow(s, Apply(s, step))
  {
  }

  lemma {:induction false} RequestGrows(s: Store, t: TenantId, c: CaseId, required: nat, roles: set<RoleKey>)
    ensures RowsGrow(s, Requested(s, t, c, required, roles)) && RoundsGrow(s, Requested(s, t, c, required, roles))
  {
    hide HasOpen;
  }

  lemma {:induction false} StartGrows(s: Store, t: TenantId, c: CaseId)
    ensures RowsGrow(s, ExecutionBegun(s, t, c)) && RoundsGrow(s, ExecutionBegun(s, t, c))
  {
  }

  lemma {:induction false} CompletionGrows(s: Store, t: TenantId, c: CaseId, a: Actor)
    requires CompleteRefusal(s, t, c, a).None?
    ensures RowsGrow(s, ExecutionDone(s, t, c)) && RoundsGrow(s, ExecutionDone(s, t, c))
  {
    hide HasOpen, InitializeRefusal;
  }

  lemma {:induction false} MilestoneGrows(s: Store, t: TenantId, c: CaseId, i: nat)
    requires MilestoneRefusal(s, t, c, i).None?
    ensures RowsGrow(s, MilestoneDone(s, t, c, i)) && RoundsGrow(s, MilestoneDone(s, t, c, i))
  {
    hide TotalWeight, CompletedWeight;
  }

  lemma {:induction false} DeliveryGrows(s: Store, t: TenantId, c: CaseId)
    ensures RowsGrow(s, Delivered(s, t, c)) && RoundsGrow(s, Delivered(s, t, c))
  {
  }

  lemma {:induction false} PaymentGrows(s: Store, t: TenantId, c: CaseId, amount: real, id: nat)
    ensures RowsGrow(s, AuthorizedStore(s, t, c, amount, id)) && RoundsGrow(s, AuthorizedStore(s, t, c, amount, id))
  {
    hide ToCents;
  }

  lemma {:induction false} SettleGrows(s: Store, t: TenantId, c: CaseId, success: bool)
    requires c in s.disbursements
    ensures RowsGrow(s, Settled(s, t, c, success)) && RoundsGrow(s, Settled(s, t, c, success))
  {
  }

  // ---- What each step leaves alone ----

  /** The steps that work on an execution. */
  predicate IsWork(step: Step) {
    step.StartExecution? || step.CompleteExecution? || step.CompleteMilestone? || step.RecordDelivery?
  }

  predicate IsPayment(step: Step) {
    step.Authorize? || step.Settle?
  }

  /** Rows keep their tenant and lifecycle, and new ones start at INTAKE. */
  predicate SameLifecycles(s: Store, s': Store) {
    && (forall c :: c in s.cases ==>
          c in s'.cases && s'.cases[c].tenantId == s.cases[c].tenantId && s'.cases[c].lifecycle == s.cases[c].lifecycle)
    && (forall c :: c in s'.cases && c !in s.cases ==> s'.cases[c].lifecycle == Intake)
  }

  /** One row moves along an edge, to EXECUTING only with an execution, and the ledger records it last. */
  predicate MovesOne(s: Store, s': Store, t: TenantId, c: CaseId, target: Lifecycle) {
    && CaseIn(s, t, c) && Edge(s.cases[c].lifecycle, target) && (target == Executing ==> ExecutionIn(s, t, c))
    && s'.cases == s.cases[c := s.cases[c].(lifecycle := target)]
    && s.ledger < s'.ledger && s'.ledger[|s'.ledger| - 1] == Fact(t, c, EventFor(target))
  }

  lemma {:induction false} CreationFrame(s: Store, step: Step)
    requires step.CreateCase? || step.IntakeBootstrap? || step.ArchiveCase?
    ensures Apply(s, step).executions == s.executions && Apply(s, step).decisions == s.decisions
    ensures Apply(s, step).evidence == s.evidence
    ensures !step.IntakeBootstrap? ==> Apply(s, step).rounds == s.rounds
    ensures SameLifecycles(s, Apply(s, step))
  {
  }

  lemma {:induction false} GrantFrame(s: Store, step: Step)
    requires IsSetup(step) && !step.CreateCase? && !step.IntakeBootstrap? && !step.ArchiveCase?
    ensures Apply(s, step).executions == s.executions && Apply(s, step).decisions == s.decisions
    ensures s.evidence <= Apply(s, step).evidence && Apply(s, step).rounds == s.rounds
    ensures Apply(s, step).cases == s.cases
  {
  }

  lemma {:induction false} SetupFrame(s: Store, step: Step)
    requires IsSetup(step)
    ensures Apply(s, step).executions == s.executions && Apply(s, step).decisions == s.decisions
    ensures s.evidence <= Apply(s, step).evidence
    ensures !step.IntakeBootstrap? ==> Apply(s, step).rounds == s.rounds
    ensures SameLifecycles(s, Apply(s, step))
  {
    hide Apply;
    if step.CreateCase? || step.IntakeBootstrap? || step.ArchiveCase? {
      CreationFrame(s, step);
    } else {
      GrantFrame(s, step);
    }
  }

  lemma {:induction false} WorkFrame(s: Store, step: Step)
    requires IsWork(step)
    ensures Apply(s, step).decisions == s.decisions && Apply(s, step).evidence == s.evidence
    ensures Apply(s, step).cases == s.cases
    ensures !step.CompleteExecution? ==> Apply(s, step).rounds == s.rounds
  {
    hide HasOpen, Complete;
    match step
    case StartExecution(t, c, a) =>
    case CompleteExecution(t, c, a) => if CompleteRefusal(s, t, c, a).None? { CompleteFrame(s, t, c, a); }
    case CompleteMilestone(t, c, i) =>
    case RecordDelivery(t, c) =>
  }

  lemma {:induction false} CompleteFrame(s: Store, t: TenantId, c: CaseId, a: Actor)
    requires CompleteRefusal(s, t, c, a).None?
    ensures ExecutionDone(s, t, c).decisions == s.decisions && ExecutionDone(s, t, c).evidence == s.evidence
    ensures ExecutionDone(s, t, c).cases == s.cases
  {
    hide HasOpen;
  }

  lemma {:induction false} PaymentFrame(s: Store, step: Step)
    requires IsPayment(step)
    ensures Apply(s, step).executions == s.executions && Apply(s, step).decisions == s.decisions
    ensures Apply(s, step).evidence == s.evidence && Apply(s, step).rounds == s.rounds
            && Apply(s, step).cases == s.cases
  {
    hide HasConsensus, IsLatestConsensus, ToCents, AuthorizeRefusal;
  }

  lemma {:induction false} TransitionFrame(s: Store, t: TenantId, c: CaseId, target: Lifecycle)
    requires c in s.cases
    ensures
      var s' := Transitioned(s, t, c, target);
      s'.executions == s.executions && s'.decisions == s.decisions && s'.evidence == s.evidence && s'.rounds == s.rounds
  {
  }

  lemma {:induction false} RequestFrame(s: Store, t: TenantId, c: CaseId, required: nat, roles: set<RoleKey>)
    ensures
      var s' := Requested(s, t, c, required, roles);
      && s'.executions == s.executions && s'.decisions == s.decisions && s'.evidence == s.evidence
      && s'.cases == s.cases
  {
    hide HasOpen;
  }

  lemma {:induction false} DecisionFrame(s: Store, q: DecisionRequest, now: int)
    requires q.caseId in s.cases
    ensures
      var s' := DecisionApplied(s, q, now);
      && s'.executions == s.executions && s'.evidence == s.evidence && s'.rounds == s.rounds
      && s'.decisions == Decided(s.decisions, q, now)
  {
    hide Decided;
  }

  lemma {:induction false} AllowedDecisionFrame(s: Store, q: DecisionRequest, now: int)
    requires DecisionRefusal(s, q).None?
    ensures
      var s' := DecisionApplied(s, q, now);
      && s'.executions == s.executions && s'.evidence == s.evidence && s'.rounds == s.rounds
      && s'.decisions == Decided(s.decisions, q, now)
  {
    DecisionFrame(s, q, now);
  }

  lemma {:induction false} VoteFrame(s: Store, id: nat, v: Vote, now: int)
    requires VoteRefusal(s, id, v).None?
    ensures
      var s' := Voted(s, id, v, now);
      && s'.executions == s.executions && s'.evidence == s.evidence
      && s'.decisions == if ReachesQuorum(s.rounds[id], v)
                         then Decided(s.decisions, ConsensusRequest(s.rounds[id], v.verifier), now) else s.decisions
  {
    hide Approvals, MayVerify, HasVoted, Decided, Edge, EventFor;
  }

  /** Lifecycles change one at a time and along edges only. */
  lemma {:induction false} CasesAfter(s: Store, step: Step)
    ensures
      var s' := Apply(s, step);
      || SameLifecycles(s, s')
      || exists t, c, target :: MovesOne(s, s', t, c, target)
  {
    var s' := Apply(s, step);
    assert s' == s ==> SameLifecycles(s, s');
    assert s'.cases == s.cases ==> SameLifecycles(s, s');
    hide SameLifecycles, MovesOne;
    hide Transitioned, DecisionApplied, Voted, Requested, ExecutionBegun, ExecutionDone, MilestoneDone, Delivered,
      AuthorizedStore, Settled, IntakeCase, Log, Decided;
    hide TransitionRefusal, DecisionRefusal, VoteRefusal, RequestRefusal, StartRefusal, CompleteRefusal,
      MilestoneRefusal, DeliveryRefusal, AuthorizeRefusal, ExecuteRefusal, HasOpen, HasConsensus, IsLatestConsensus;
    if IsSetup(step) { SetupFrame(s, step); }
    if IsWork(step) { WorkFrame(s, step); }
    if IsPayment(step) { PaymentFrame(s, step); }
    match step
    case Transition(t, c, target, a) =>
      if TransitionRefusal(s, t, c, target, a).None? { TransitionMoves(s, t, c, target, a); }
    case Decide(q, now) => if DecisionRefusal(s, q).None? { DecisionMoves(s, q, now); }
    case CastVote(id, v, now) => if VoteRefusal(s, id, v).None? { VoteMoves(s, id, v, now); }
    case RequestRound(t, c, required, requiredRoles) => RequestFrame(s, t, c, required, requiredRoles);
    case _ =>
  }

  lemma {:induction false} TransitionMoves(s: Store, t: TenantId, c: CaseId, target: Lifecycle, a: Actor)
    requires TransitionRefusal(s, t, c, target, a).None?
    ensures MovesOne(s, Transitioned(s, t, c, target), t, c, target)
  {
  }

  lemma {:induction false} DecisionMoves(s: Store, q: DecisionRequest, now: int)
    requires DecisionRefusal(s, q).None?
    ensures DecisionApplied(s, q, now).cases == s.cases
            || MovesOne(s, DecisionApplied(s, q, now), q.tenantId, q.caseId, Verified)
  {
    hide Decided, Edge;
  }

  lemma {:induction false} VoteMoves(s: Store, id: nat, v: Vote, now: int)
    requires VoteRefusal(s, id, v).None?
    ensures Voted(s, id, v, now).cases == s.cases
            || MovesOne(s, Voted(s, id, v, now), s.rounds[id].tenantId, s.rounds[id].caseId, Verified)
  {
    hide Decided, Edge, Approvals, MayVerify, HasVoted, EventFor;
  }

  /** Only two steps touch the decision table, and each adds one decision to it. */
  lemma {:induction false} DecisionsAfter(s: Store, step: Step)
    ensures Apply(s, step).decisions ==
            match step
            case Decide(q, now) => (if DecisionRefusal(s, q).Some? then s.decisions else Decided(s.decisions, q, now))
            case CastVote(id, v, now) =>
              (if VoteRefusal(s, id, v).Some? || !ReachesQuorum(s.rounds[id], v) then s.decisions
               else Decided(s.decisions, ConsensusRequest(s.rounds[id], v.verifier), now))
            case _ => s.decisions
  {
    RoundOfVote(s, step);
    hide Transitioned, DecisionApplied, Voted, Requested, ExecutionBegun, ExecutionDone, MilestoneDone, Delivered,
      AuthorizedStore, Settled, IntakeCase, Log, Decided;
    hide TransitionRefusal, DecisionRefusal, VoteRefusal, RequestRefusal, StartRefusal, CompleteRefusal,
      MilestoneRefusal, DeliveryRefusal, AuthorizeRefusal, ExecuteRefusal, HasOpen, HasConsensus, IsLatestConsensus;
    if IsSetup(step) { SetupFrame(s, step); }
    if IsWork(step) { WorkFrame(s, step); }
    if IsPayment(step) { PaymentFrame(s, step); }
    match step
    case Transition(t, c, target, a) =>
      if c in s.cases { TransitionFrame(s, t, c, target); } else { NoCase(s, t, c, target, a); }
    case Decide(q, now) => if DecisionRefusal(s, q).None? { AllowedDecisionFrame(s, q, now); }
    case CastVote(id, v, now) => if VoteRefusal(s, id, v).None? { VoteFrame(s, id, v, now); }
    case RequestRound(t, c, required, requiredRoles) => RequestFrame(s, t, c, required, requiredRoles);
    case _ =>
  }

  lemma {:induction false} NoCase(s: Store, t: TenantId, c: CaseId, target: Lifecycle, a: Actor)
    requires c !in s.cases
    ensures TransitionRefusal(s, t, c, target, a).Some?
  {
  }

  lemma {:induction false} RoundOfVote(s: Store, step: Step)
    ensures step.CastVote? && VoteRefusal(s, step.id, step.v).None? ==> step.id < |s.rounds|
  {
  }

  lemma {:induction false} UntouchedRounds(s: Store, step: Step)
    requires !step.CastVote? && !step.IntakeBootstrap? && !step.RequestRound? && !step.CompleteExecution?
    ensures Apply(s, step).rounds == s.rounds
  {
    hide Transitioned, DecisionApplied, Voted, Requested, ExecutionBegun, ExecutionDone, MilestoneDone, Delivered,
      AuthorizedStore, Settled, IntakeCase, Log, Decided;
    hide TransitionRefusal, DecisionRefusal, VoteRefusal, RequestRefusal, StartRefusal, CompleteRefusal,
      MilestoneRefusal, DeliveryRefusal, AuthorizeRefusal, ExecuteRefusal, HasOpen, HasConsensus, IsLatestConsensus;
    if IsSetup(step) { SetupFrame(s, step); }
    if IsWork(step) { WorkFrame(s, step); }
    if IsPayment(step) { PaymentFrame(s, step); }
    match step
    case Transition(t, c, target, a) =>
      if c in s.cases { TransitionFrame(s, t, c, target); } else { NoCase(s, t, c, target, a); }
    case Decide(q, now) => if DecisionRefusal(s, q).None? { AllowedDecisionFrame(s, q, now); }
    case _ =>
  }

  lemma {:induction false} OthersLeaveExecutions(s: Store, step: Step)
    requires !IsWork(step)
    ensures Apply(s, step).executions == s.executions && s.evidence <= Apply(s, step).evidence
  {
    hide Transitioned, DecisionApplied, Voted, Requested, ExecutionBegun, ExecutionDone, MilestoneDone, Delivered,
      AuthorizedStore, Settled, IntakeCase, Log, Decided;
    hide TransitionRefusal, DecisionRefusal, VoteRefusal, RequestRefusal, StartRefusal, CompleteRefusal,
      MilestoneRefusal, DeliveryRefusal, AuthorizeRefusal, ExecuteRefusal, HasOpen, HasConsensus, IsLatestConsensus;
    if IsSetup(step) { SetupFrame(s, step); }
    if IsPayment(step) { PaymentFrame(s, step); }
    match step
    case Transition(t, c, target, a) =>
      if c in s.cases { TransitionFrame(s, t, c, target); } else { NoCase(s, t, c, target, a); }
    case Decide(q, now) => if DecisionRefusal(s, q).None? { AllowedDecisionFrame(s, q, now); }
    case CastVote(id, v, now) => if VoteRefusal(s, id, v).None? { VoteFrame(s, id, v, now); }
    case RequestRound(t, c, required, requiredRoles) => RequestFrame(s, t, c, required, requiredRoles);
    case _ =>
  }

  // ---- Rows ----

  /** An execution belongs to an existing case and carries its tenant. */
  predicate RowsOk(s: Store) {
    forall c :: c in s.executions ==> CaseIn(s, s.executions[c].tenantId, c)
  }

  lemma {:induction false} StepKeepsRows(s: Store, step: Step)
    requires RowsOk(s)
    ensures RowsOk(Apply(s, step))
  {
    StepGrows(s, step);
    var s' := Apply(s, step);
    forall c | c in s'.executions && c !in s.executions ensures CaseIn(s', s'.executions[c].tenantId, c) {
      NewExecutions(s, step, c);
    }
    hide Apply;
  }

  lemma {:induction false} NewExecutions(s: Store, step: Step, c: CaseId)
    requires c in Apply(s, step).executions && c !in s.executions
    ensures (step.StartExecution? || step.RecordDelivery?) && c == step.c && CaseIn(s, step.t, c)
    ensures Apply(s, step).executions[c].tenantId == step.t
  {
    if IsWork(step) { NewByWork(s, step, c); } else { OthersLeaveExecutions(s, step); }
    hide Apply;
  }

  lemma {:induction false} NewByWork(s: Store, step: Step, c: CaseId)
    requires IsWork(step) && c in Apply(s, step).executions && c !in s.executions
    ensures (step.StartExecution? || step.RecordDelivery?) && c == step.c && CaseIn(s, step.t, c)
    ensures Apply(s, step).executions[c].tenantId == step.t
  {
    hide HasOpen, Complete, InitializeRefusal;
  }

  // ---- Rounds ----

  /** Distinct authorised voters; finalized exactly at the quorum, on a completed execution, for a case of
      the round's own tenant. */
  predicate RoundSound(s: Store, r: Round) {
    && r.caseId in s.cases && 0 < r.requiredVerifiers
    && (forall i, j :: 0 <= i < j < |r.votes| ==> r.votes[i].verifier != r.votes[j].verifier)
    && (forall i :: 0 <= i < |r.votes| ==> MayVerify(s, r, r.votes[i].verifier))
    && if r.consensusReached then
         && Approvals(r.votes) == r.requiredVerifiers
         && CompletedIn(s, r.tenantId, r.caseId) && CaseIn(s, r.tenantId, r.caseId)
       else Approvals(r.votes) < r.requiredVerifiers
  }

  predicate NotBothOpen(a: Round, b: Round) {
    !(a.tenantId == b.tenantId && a.caseId == b.caseId && !a.consensusReached && !b.consensusReached)
  }

  predicate RoundsSound(s: Store) {
    && (forall i :: 0 <= i < |s.rounds| ==> RoundSound(s, s.rounds[i]))
    && (forall i, j :: 0 <= i < j < |s.rounds| ==> NotBothOpen(s.rounds[i], s.rounds[j]))
  }

  lemma {:induction false} RoundKept(s: Store, s': Store, r: Round)
    requires RoundSound(s, r) && RowsKept(s, s')
    ensures RoundSound(s', r)
  {
    forall i | 0 <= i < |r.votes| ensures MayVerify(s', r, r.votes[i].verifier) {
      var k :| k in r.requiredRoles && (r.votes[i].verifier, r.tenantId, k) in s.userRoles;
      assert (r.votes[i].verifier, r.tenantId, k) in s'.userRoles;
    }
  }

  lemma {:induction false} SameRoundsSound(s: Store, s': Store)
    requires RoundsSound(s) && RowsKept(s, s') && s'.rounds == s.rounds
    ensures RoundsSound(s')
  {
    forall i | 0 <= i < |s'.rounds| ensures RoundSound(s', s'.rounds[i]) { RoundKept(s, s', s.rounds[i]); }
    hide NotBothOpen;
  }

  lemma {:induction false} NewRoundSound(s: Store, s': Store, t: TenantId, c: CaseId, required: nat,
                                         roles: set<RoleKey>)
    requires RoundsSound(s) && RowsKept(s, s') && s'.rounds == s.rounds + [NewRound(t, c, required, roles)]
    requires required > 0 && c in s'.cases && !HasOpen(s, t, c)
    ensures RoundsSound(s')
  {
    var r := NewRound(t, c, required, roles);
    forall i | 0 <= i < |s'.rounds| ensures RoundSound(s', s'.rounds[i]) {
      if i < |s.rounds| { RoundKept(s, s', s.rounds[i]); }
    }
    forall i, j | 0 <= i < j < |s'.rounds| ensures NotBothOpen(s'.rounds[i], s'.rounds[j]) {
      if j < |s.rounds| { assert NotBothOpen(s.rounds[i], s.rounds[j]); } else { assert !IsOpen(s.rounds[i], t, c); }
    }
  }

  lemma {:induction false} ApprovalsSnoc(votes: seq<Vote>, v: Vote)
    ensures Approvals(votes + [v]) == Approvals(votes) + if v.status == Approved then 1 else 0
  {
    assert (votes + [v])[..|votes|] == votes;
  }

  /** The round a vote leaves behind. */
  function RoundAfterVote(s: Store, id: nat, v: Vote, now: int): Round
    requires id < |s.rounds|
  {
    var r := s.rounds[id].(votes := s.rounds[id].votes + [v]);
    if ReachesQuorum(s.rounds[id], v) then r.(consensusReached := true, verifiedAt := now) else r
  }

  lemma {:induction false} VotedParts(s: Store, id: nat, v: Vote, now: int)
    requires VoteRefusal(s, id, v).None?
    ensures Voted(s, id, v, now).rounds == s.rounds[id := RoundAfterVote(s, id, v, now)]
    ensures Voted(s, id, v, now).executions == s.executions && Voted(s, id, v, now).userRoles == s.userRoles
    ensures Voted(s, id, v, now).disbursements == s.disbursements
    ensures ReachesQuorum(s.rounds[id], v) ==>
              var r := s.rounds[id];
              && EffectRefusal(s, ConsensusRequest(r, v.verifier)).None? && CaseIn(s, r.tenantId, r.caseId)
              && Voted(s, id, v, now).cases == s.cases[r.caseId := s.cases[r.caseId].(lifecycle := Verified)]
    ensures !ReachesQuorum(s.rounds[id], v) ==> Voted(s, id, v, now).cases == s.cases
  {
    hide Approvals, MayVerify, HasVoted, Decided, Edge, EventFor;
  }

  lemma {:induction false} MayVerifyKept(s: Store, s': Store, r: Round, r': Round, u: UserId)
    requires MayVerify(s, r, u) && s.userRoles <= s'.userRoles
    requires r'.requiredRoles == r.requiredRoles && r'.tenantId == r.tenantId
    ensures MayVerify(s', r', u)
  {
    var k :| k in r.requiredRoles && (u, r.tenantId, k) in s.userRoles;
    assert k in r'.requiredRoles && (u, r'.tenantId, k) in s'.userRoles;
  }

  /** A sound open round with one more vote by somebody new, finalized or not. */
  lemma {:induction false} OneMoreVote(s: Store, s': Store, r: Round, r': Round, v: Vote)
    requires RoundSound(s, r) && RowsKept(s, s') && !r.consensusReached
    requires MayVerify(s, r, v.verifier) && forall i :: 0 <= i < |r.votes| ==> r.votes[i].verifier != v.verifier
    requires r' == r.(votes := r.votes + [v], consensusReached := r'.consensusReached, verifiedAt := r'.verifiedAt)
    requires r'.consensusReached <==> Approvals(r.votes + [v]) >= r.requiredVerifiers
    requires CompletedIn(s', r.tenantId, r.caseId) && (r'.consensusReached ==> CaseIn(s', r.tenantId, r.caseId))
    ensures RoundSound(s', r')
  {
    hide MayVerify, RowsKept;
    ApprovalsSnoc(r.votes, v);
    KeptMeans(s, s', r.caseId);
    forall i | 0 <= i < |r'.votes| ensures MayVerify(s', r', r'.votes[i].verifier) {
      MayVerifyKept(s, s', r, r', r'.votes[i].verifier);
    }
    hide Approvals, CompletedIn;
  }

  lemma {:induction false} KeptMeans(s: Store, s': Store, c: CaseId)
    requires RowsKept(s, s') && c in s.cases
    ensures s.userRoles <= s'.userRoles && c in s'.cases
  {
  }

  lemma {:induction false} VotedRoundSound(s: Store, id: nat, v: Vote, now: int)
    requires RoundsSound(s) && VoteRefusal(s, id, v).None?
    ensures RoundSound(Voted(s, id, v, now), RoundAfterVote(s, id, v, now))
  {
    var r, r', s' := s.rounds[id], RoundAfterVote(s, id, v, now), Voted(s, id, v, now);
    assert RoundSound(s, r);
    AcceptedVote(s, id, v);
    VoteGrows(s, id, v, now);
    VotedParts(s, id, v, now);
    hide Voted, VoteRefusal, EffectRefusal, Approvals, RoundsSound, RoundSound, MayVerify, RoundsGrow;
    assert CompletedIn(s', r.tenantId, r.caseId);
    assert RowsKept(s, s');
    OneMoreVote(s, s', r, r', v);
  }

  /** What voting checks before it looks at the quorum. */
  lemma {:induction false} AcceptedVote(s: Store, id: nat, v: Vote)
    requires VoteRefusal(s, id, v).None?
    ensures id < |s.rounds|
    ensures
      var r := s.rounds[id];
      && !r.consensusReached && CompletedIn(s, r.tenantId, r.caseId) && MayVerify(s, r, v.verifier)
      && forall i :: 0 <= i < |r.votes| ==> r.votes[i].verifier != v.verifier
  {
    hide MayVerify, ReachesQuorum;
  }

  lemma {:induction false} VoteKeepsSound(s: Store, id: nat, v: Vote, now: int)
    requires RoundsSound(s) && VoteRefusal(s, id, v).None?
    ensures RoundsSound(Voted(s, id, v, now))
  {
    var s' := Voted(s, id, v, now);
    VotedParts(s, id, v, now);
    VoteGrows(s, id, v, now);
    VotedRoundSound(s, id, v, now);
    assert RowsKept(s, s');
    hide Voted, VoteRefusal, RoundSound, RowsKept, RowsGrow, RoundsGrow;
    forall i | 0 <= i < |s'.rounds| ensures RoundSound(s', s'.rounds[i]) {
      if i != id { RoundKept(s, s', s.rounds[i]); }
    }
    forall i, j | 0 <= i < j < |s'.rounds| ensures NotBothOpen(s'.rounds[i], s'.rounds[j]) {
      assert NotBothOpen(s.rounds[i], s.rounds[j]);
    }
  }

  lemma {:induction false} OpeningKeepsSound(s: Store, s': Store, step: Step)
    requires RowsOk(s) && RoundsSound(s) && s' == Apply(s, step) && RowsKept(s, s')
    requires step.IntakeBootstrap? || step.RequestRound? || step.CompleteExecution?
    ensures RoundsSound(s')
  {
    if s'.rounds == s.rounds { SameRoundsSound(s, s'); } else {
      match step
      case IntakeBootstrap(t, c) =>
        forall i | 0 <= i < |s.rounds| ensures !IsOpen(s.rounds[i], t, c) { assert RoundSound(s, s.rounds[i]); }
        NewRoundSound(s, s', t, c, 2, {});
      case RequestRound(t, c, required, requiredRoles) => NewRoundSound(s, s', t, c, required, requiredRoles);
      case CompleteExecution(t, c, a) => CompletionOpensRound(s, t, c, a); NewRoundSound(s, s', t, c, 2, {"VERIFIER"});
    }
  }

  lemma {:induction false} CompletionOpensRound(s: Store, t: TenantId, c: CaseId, a: Actor)
    requires Apply(s, CompleteExecution(t, c, a)).rounds != s.rounds
    ensures !HasOpen(s, t, c)
    ensures Apply(s, CompleteExecution(t, c, a)).rounds == s.rounds + [NewRound(t, c, 2, {"VERIFIER"})]
    ensures c in s.executions
  {
    assert HasOpen(MarkFinished(s, t, c), t, c) <==> HasOpen(s, t, c);
  }

  lemma {:induction false} StepKeepsRounds(s: Store, step: Step)
    requires RowsOk(s) && RoundsSound(s)
    ensures RoundsSound(Apply(s, step))
  {
    StepGrows(s, step);
    assert RowsKept(s, Apply(s, step));
    hide Apply, RowsKept, RowsGrow, RoundsGrow, RoundsSound;
    match step
    case CastVote(id, v, now) => VoteStepKeepsSound(s, id, v, now);
    case IntakeBootstrap(_, _) => OpeningKeepsSound(s, Apply(s, step), step);
    case RequestRound(_, _, _, _) => OpeningKeepsSound(s, Apply(s, step), step);
    case CompleteExecution(_, _, _) => OpeningKeepsSound(s, Apply(s, step), step);
    case _ => UntouchedRounds(s, step); SameRoundsSound(s, Apply(s, step));
  }

  lemma {:induction false} VoteStepKeepsSound(s: Store, id: nat, v: Vote, now: int)
    requires RoundsSound(s)
    ensures RoundsSound(Apply(s, CastVote(id, v, now)))
  {
    hide Voted, VoteRefusal, RoundsSound;
    if VoteRefusal(s, id, v).None? { VoteKeepsSound(s, id, v, now); }
  }

  // ---- Consensus ----

  /** A case with a consensus is verified, and has only one. */
  predicate ConsensusOk(s: Store) {
    && (forall i :: 0 <= i < |s.rounds| && s.rounds[i].consensusReached ==>
          s.rounds[i].caseId in s.cases && s.cases[s.rounds[i].caseId].lifecycle in VERIFIED_STATES)
    && (forall i, j :: 0 <= i < j < |s.rounds| && s.rounds[i].caseId == s.rounds[j].caseId ==>
          !(s.rounds[i].consensusReached && s.rounds[j].consensusReached))
  }

  /** Two rounds of one case cannot both reach consensus: the second finds no edge into VERIFIED. */
  lemma {:induction false} SecondConsensusHasNoEdge(s: Store, id: nat, v: Vote, j: nat)
    requires ConsensusOk(s) && VoteRefusal(s, id, v).None? && ReachesQuorum(s.rounds[id], v)
    requires j < |s.rounds| && s.rounds[j].caseId == s.rounds[id].caseId
    ensures !s.rounds[j].consensusReached
  {
    hide Approvals, MayVerify, HasVoted;
  }

  lemma {:induction false} VoteKeepsConsensus(s: Store, id: nat, v: Vote, now: int)
    requires ConsensusOk(s) && VoteRefusal(s, id, v).None?
    ensures ConsensusOk(Voted(s, id, v, now))
  {
    var s' := Voted(s, id, v, now);
    VotedParts(s, id, v, now);
    VoteGrows(s, id, v, now);
    if ReachesQuorum(s.rounds[id], v) {
      forall j | 0 <= j < |s.rounds| && s.rounds[j].caseId == s.rounds[id].caseId
        ensures !s.rounds[j].consensusReached
      {
        SecondConsensusHasNoEdge(s, id, v, j);
      }
    }
    hide Voted, VoteRefusal, RoundsGrow;
  }

  /** No new round has reached consensus, and none of the old ones is touched. */
  lemma {:induction false} OthersKeepConsensus(s: Store, s': Store)
    requires ConsensusOk(s) && RowsGrow(s, s')
    requires s'.rounds == s.rounds || exists r: Round :: !r.consensusReached && s'.rounds == s.rounds + [r]
    ensures ConsensusOk(s')
  {
  }

  lemma {:induction false} StepKeepsConsensus(s: Store, step: Step)
    requires ConsensusOk(s)
    ensures ConsensusOk(Apply(s, step))
  {
    if step.CastVote? {
      hide Voted, VoteRefusal, ConsensusOk;
      if VoteRefusal(s, step.id, step.v).None? { VoteKeepsConsensus(s, step.id, step.v, step.now); }
    } else {
      StepGrows(s, step);
      RoundsAfter(s, step);
      hide Apply;
      OthersKeepConsensus(s, Apply(s, step));
    }
  }

  /** Apart from votes a step opens at most one round. */
  lemma {:induction false} RoundsAfter(s: Store, step: Step)
    requires !step.CastVote?
    ensures Apply(s, step).rounds == s.rounds
            || exists r: Round :: !r.consensusReached && Apply(s, step).rounds == s.rounds + [r]
  {
    match step
    case IntakeBootstrap(t, c) => assert !NewRound(t, c, 2, {}).consensusReached;
    case RequestRound(t, c, required, requiredRoles) =>
      assert !NewRound(t, c, required, requiredRoles).consensusReached;
      hide HasOpen;
    case CompleteExecution(t, c, a) =>
      assert !NewRound(t, c, 2, {"VERIFIER"}).consensusReached;
      if Apply(s, step).rounds != s.rounds { CompletionOpensRound(s, t, c, a); }
      hide Apply;
    case _ => UntouchedRounds(s, step); hide Apply;
  }

  // ---- Disbursements ----

  /** The disbursement events of a case, in ledger order. */
  function PayEvents(ledger: seq<Fact>, c: CaseId): seq<EventType> {
    if ledger == [] then []
    else
      var f := ledger[|ledger| - 1];
      PayEvents(ledger[..|ledger| - 1], c) + if f.caseId == c && f.event in PAY_EVENTS then [f.event] else []
  }

  lemma {:induction false} PayEventsSnoc(ledger: seq<Fact>, f: Fact, c: CaseId)
    ensures f.caseId == c && f.event in PAY_EVENTS ==> PayEvents(ledger + [f], c) == PayEvents(ledger, c) + [f.event]
    ensures !(f.caseId == c && f.event in PAY_EVENTS) ==> PayEvents(ledger + [f], c) == PayEvents(ledger, c)
  {
    assert (ledger + [f])[..|ledger|] == ledger;
  }

  lemma {:induction false} PayEventsExtend(ledger: seq<Fact>, more: seq<Fact>, c: CaseId)
    requires forall i :: 0 <= i < |more| ==> more[i].event !in PAY_EVENTS
    ensures PayEvents(ledger + more, c) == PayEvents(ledger, c)
    decreases |more|
  {
    if more == [] {
      assert ledger + more == ledger;
    } else {
      var init := more[..|more| - 1];
      assert ledger + more == (ledger + init) + [more[|more| - 1]];
      PayEventsExtend(ledger, init, c);
      PayEventsSnoc(ledger + init, more[|more| - 1], c);
    }
  }

  /** One authorisation, then one outcome once the status is terminal. */
  function ExpectedEvents(d: DisbursementStatus): seq<EventType> {
    match d
    case Paid => [DisbursementAuthorized, DisbursementCompleted]
    case Failed => [DisbursementAuthorized, DisbursementFailed]
    case _ => [DisbursementAuthorized]
  }

  /** The disbursement rests on a consensus round of its own case and on a completed execution. */
  predicate Backed(s: Store, c: CaseId, d: Disbursement) {
    && d.roundId < |s.rounds| && IsConsensusOf(s.rounds[d.roundId], c)
    && s.rounds[d.roundId].tenantId == d.tenantId
    && CaseIn(s, d.tenantId, c) && CompletedIn(s, d.tenantId, c)
    && d.status in {Authorized, Paid, Failed}
  }

  ghost predicate PayOk(s: Store, c: CaseId) {
    if c in s.disbursements
    then Backed(s, c, s.disbursements[c]) && PayEvents(s.ledger, c) == ExpectedEvents(s.disbursements[c].status)
    else PayEvents(s.ledger, c) == []
  }

  lemma {:induction false} PayKept(s: Store, s': Store, c: CaseId)
    requires PayOk(s, c) && RowsKept(s, s') && RoundsGrow(s, s')
    requires s'.disbursements == s.disbursements
    requires PayEvents(s'.ledger, c) == PayEvents(s.ledger, c)
    ensures PayOk(s', c)
  {
    hide PayEvents;
  }

  /** The ledger grows by other events only. */
  predicate Ordinary(s: Store, s': Store) {
    && s'.disbursements == s.disbursements && s.ledger <= s'.ledger
    && forall i :: |s.ledger| <= i < |s'.ledger| ==> s'.ledger[i].event !in PAY_EVENTS
  }

  /** Outside the two disbursement services the ledger only receives other events. */
  lemma {:induction false} OrdinaryStep(s: Store, step: Step)
    requires !step.Authorize? && !step.Settle?
    ensures Ordinary(s, Apply(s, step))
  {
    hide Ordinary, HasOpen, Transitioned, DecisionApplied, Voted, Requested, ExecutionDone, MilestoneDone;
    match step
    case Transition(t, c, target, a) =>
      if TransitionRefusal(s, t, c, target, a).None? {
        OrdinaryTransition(s, t, c, target);
      } else {
        OrdinaryLog(s, s);
      }
    case Decide(q, now) =>
      if DecisionRefusal(s, q).None? { OrdinaryDecision(s, q, now); } else { OrdinaryLog(s, s); }
    case CastVote(id, v, now) =>
      if VoteRefusal(s, id, v).None? { OrdinaryVote(s, id, v, now); } else { OrdinaryLog(s, s); }
    case CompleteExecution(t, c, a) =>
      if CompleteRefusal(s, t, c, a).None? { OrdinaryCompletion(s, t, c); } else { OrdinaryLog(s, s); }
    case CompleteMilestone(t, c, i) =>
      if MilestoneRefusal(s, t, c, i).None? { OrdinaryMilestone(s, t, c, i); } else { OrdinaryLog(s, s); }
    case RequestRound(t, c, required, requiredRoles) =>
      OrdinaryRequest(s, t, c, required, requiredRoles);
      OrdinaryLog(s, s);
    case _ => OrdinaryLog(s, Apply(s, step));
  }

  /** At most one fact is appended, and it is not about a payment. */
  lemma {:induction false} OrdinaryLog(s: Store, s': Store)
    requires s'.disbursements == s.disbursements
    requires s'.ledger == s.ledger
             || exists f: Fact :: f.event !in PAY_EVENTS && s'.ledger == s.ledger + [f]
    ensures Ordinary(s, s')
  {
  }

  lemma {:induction false} OrdinaryTransition(s: Store, t: TenantId, c: CaseId, target: Lifecycle)
    requires c in s.cases
    ensures Ordinary(s, Transitioned(s, t, c, target))
  {
    EventForIsOrdinary(target);
  }

  lemma {:induction false} OrdinaryDecision(s: Store, q: DecisionRequest, now: int)
    requires q.caseId in s.cases
    ensures Ordinary(s, DecisionApplied(s, q, now))
  {
    EventForIsOrdinary(Verified);
    hide Decided, EventFor;
  }

  lemma {:induction false} OrdinaryVote(s: Store, id: nat, v: Vote, now: int)
    requires VoteRefusal(s, id, v).None?
    ensures Ordinary(s, Voted(s, id, v, now))
  {
    EventForIsOrdinary(Verified);
    hide Decided, EventFor, Edge, MayVerify, HasVoted, Approvals;
  }

  lemma {:induction false} OrdinaryCompletion(s: Store, t: TenantId, c: CaseId)
    requires c in s.executions
    ensures Ordinary(s, ExecutionDone(s, t, c))
  {
    hide HasOpen;
  }

  lemma {:induction false} OrdinaryMilestone(s: Store, t: TenantId, c: CaseId, i: nat)
    requires MilestoneRefusal(s, t, c, i).None?
    ensures Ordinary(s, MilestoneDone(s, t, c, i))
  {
    hide CompletedWeight, TotalWeight;
  }

  lemma {:induction false} OrdinaryRequest(s: Store, t: TenantId, c: CaseId, required: nat, roles: set<RoleKey>)
    ensures Ordinary(s, Requested(s, t, c, required, roles))
  {
    hide HasOpen;
  }

  lemma {:induction false} EventForIsOrdinary(l: Lifecycle)
    ensures EventFor(l) !in PAY_EVENTS
  {
  }

  lemma {:induction false} AuthorizeKeepsPay(s: Store, t: TenantId, c: CaseId, amount: Option<real>, id: nat,
                                             a: Actor, d: CaseId)
    requires RowsOk(s) && RoundsSound(s) && PayOk(s, c) && PayOk(s, d)
    requires c !in s.disbursements && AuthorizeRefusal(s, t, c, amount, a).None? && IsLatestConsensus(s, c, id)
    ensures PayOk(AuthorizedStore(s, t, c, amount.value, id), d)
  {
    var s' := AuthorizedStore(s, t, c, amount.value, id);
    PayEventsSnoc(s.ledger, Fact(t, c, DisbursementAuthorized), d);
    hide PayEvents, MayVerify, Approvals, HasConsensus;
    if d == c { assert RoundSound(s, s.rounds[id]); }
  }

  lemma {:induction false} SettleKeepsPay(s: Store, t: TenantId, c: CaseId, a: Actor, success: bool, d: CaseId)
    requires PayOk(s, c) && PayOk(s, d) && ExecuteRefusal(s, c, a).None?
    ensures PayOk(Settled(s, t, c, success), d)
  {
    PayEventsSnoc(s.ledger, Fact(t, c, if success then DisbursementCompleted else DisbursementFailed), d);
    hide PayEvents;
  }

  lemma {:induction false} StepKeepsPay(s: Store, step: Step, d: CaseId)
    requires RowsOk(s) && RoundsSound(s) && forall c :: PayOk(s, c)
    ensures PayOk(Apply(s, step), d)
  {
    hide PayOk, RoundSound, RoundsSound, RowsOk, AuthorizeRefusal, ExecuteRefusal;
    var s' := Apply(s, step);
    assert PayOk(s, d);
    match step
    case Authorize(t, c, amount, a, latest) =>
      assert PayOk(s, c);
      if s' != s { AuthorizeKeepsPay(s, t, c, amount, latest, a, d); }
    case Settle(t, c, a, success) =>
      assert PayOk(s, c);
      if s' != s { SettleKeepsPay(s, t, c, a, success, d); }
    case _ => OrdinaryKeepsPay(s, step, d);
  }

  lemma {:induction false} OrdinaryKeepsPay(s: Store, step: Step, d: CaseId)
    requires PayOk(s, d) && !step.Authorize? && !step.Settle?
    ensures PayOk(Apply(s, step), d)
  {
    var s' := Apply(s, step);
    StepGrows(s, step);
    assert RowsKept(s, s');
    hide Apply, PayOk, RowsKept, RowsGrow, RoundsGrow, PayEvents;
    OrdinaryStep(s, step);
    assert s'.ledger == s.ledger + s'.ledger[|s.ledger|..];
    PayEventsExtend(s.ledger, s'.ledger[|s.ledger|..], d);
    PayKept(s, s', d);
  }

  // ---- Decisions ----

  predicate SameSubject(a: Decision, b: Decision) {
    a.tenantId == b.tenantId && a.caseId == b.caseId && a.decisionType == b.decisionType
  }

  /** A decision is active exactly while it is the latest of its (tenant, case, type), and an explicit
      supersession names the decision that was active when it was made. */
  predicate DecisionsOk(ds: seq<Decision>) {
    && (forall i :: 0 <= i < |ds| ==>
          (ds[i].supersededAt.None? <==> forall j :: i < j < |ds| ==> !SameSubject(ds[i], ds[j])))
    && (forall j :: 0 <= j < |ds| && ds[j].supersedes.Some? ==>
          var i := ds[j].supersedes.value;
          && i < j && SameSubject(ds[i], ds[j])
          && forall k :: i < k < j ==> !SameSubject(ds[i], ds[k]))
  }

  /** History only grows: an old decision keeps every field, and a superseding time is set once. */
  predicate HistoryGrows(ds: seq<Decision>, ds': seq<Decision>) {
    && |ds| <= |ds'|
    && forall i :: 0 <= i < |ds| ==>
         && ds'[i] == ds[i].(supersededAt := ds'[i].supersededAt)
         && (ds[i].supersededAt.Some? ==> ds'[i].supersededAt == ds[i].supersededAt)
  }

  /** What superseding and inserting does to each row. */
  lemma {:induction false} DecidedRows(ds: seq<Decision>, q: DecisionRequest, now: int)
    ensures forall i :: 0 <= i < |ds| ==>
              Decided(ds, q, now)[i] == if ActiveFor(ds[i], q) then ds[i].(supersededAt := Some(now)) else ds[i]
    ensures SameKey(Decided(ds, q, now)[|ds|], q)
    ensures Decided(ds, q, now)[|ds|].supersededAt.None? && Decided(ds, q, now)[|ds|].supersedes == q.supersedes
  {
  }

  lemma {:induction false} OneActive(ds: seq<Decision>, q: DecisionRequest, now: int)
    ensures HistoryGrows(ds, Decided(ds, q, now))
    ensures forall i :: 0 <= i <= |ds| ==> (ActiveFor(Decided(ds, q, now)[i], q) <==> i == |ds|)
  {
    DecidedRows(ds, q, now);
    hide Decided;
  }

  lemma {:induction false} LatestStaysActive(ds: seq<Decision>, q: DecisionRequest, now: int, i: nat)
    requires DecisionsOk(ds) && i <= |ds|
    ensures Decided(ds, q, now)[i].supersededAt.None? <==>
            forall j :: i < j <= |ds| ==> !SameSubject(Decided(ds, q, now)[i], Decided(ds, q, now)[j])
  {
    DecidedRows(ds, q, now);
    hide Decided;
    var ds' := Decided(ds, q, now);
    if i < |ds| {
      assert SameSubject(ds'[i], ds'[|ds|]) <==> SameKey(ds[i], q);
      assert forall j :: i < j < |ds| ==> (SameSubject(ds'[i], ds'[j]) <==> SameSubject(ds[i], ds[j]));
    }
  }

  /** Superseding changes no row's subject. */
  lemma {:induction false} SubjectsKept(ds: seq<Decision>, q: DecisionRequest, now: int, i: nat, k: nat)
    requires i < |ds| && k < |ds|
    ensures SameSubject(Decided(ds, q, now)[i], Decided(ds, q, now)[k]) <==> SameSubject(ds[i], ds[k])
  {
    DecidedRows(ds, q, now);
    hide Decided;
  }

  lemma {:induction false} NewLinkNamesTheActive(ds: seq<Decision>, q: DecisionRequest, now: int)
    requires DecisionsOk(ds) && q.supersedes.Some?
    requires q.supersedes.value < |ds| && ActiveFor(ds[q.supersedes.value], q)
    ensures SameSubject(Decided(ds, q, now)[q.supersedes.value], Decided(ds, q, now)[|ds|])
    ensures forall k :: q.supersedes.value < k < |ds| ==> !SameSubject(ds[q.supersedes.value], ds[k])
  {
    DecidedRows(ds, q, now);
    hide Decided;
  }

  lemma {:induction false} LinksNameTheActive(ds: seq<Decision>, q: DecisionRequest, now: int, j: nat)
    requires DecisionsOk(ds) && j <= |ds|
    requires q.supersedes.Some? ==> q.supersedes.value < |ds| && ActiveFor(ds[q.supersedes.value], q)
    requires Decided(ds, q, now)[j].supersedes.Some?
    ensures
      var ds' := Decided(ds, q, now);
      var i := ds'[j].supersedes.value;
      i < j && SameSubject(ds'[i], ds'[j]) && forall k :: i < k < j ==> !SameSubject(ds'[i], ds'[k])
  {
    DecidedRows(ds, q, now);
    hide Decided;
    var ds' := Decided(ds, q, now);
    var i := ds'[j].supersedes.value;
    if j < |ds| {
      assert ds[j].supersedes == Some(i);
      SubjectsKept(ds, q, now, i, j);
    } else {
      NewLinkNamesTheActive(ds, q, now);
    }
    hide SameSubject;
    forall k | i < k < j ensures !SameSubject(ds'[i], ds'[k]) { SubjectsKept(ds, q, now, i, k); }
  }

  lemma {:induction false} DecidedKeepsDecisions(ds: seq<Decision>, q: DecisionRequest, now: int)
    requires DecisionsOk(ds)
    requires q.supersedes.Some? ==> q.supersedes.value < |ds| && ActiveFor(ds[q.supersedes.value], q)
    ensures DecisionsOk(Decided(ds, q, now))
  {
    var ds' := Decided(ds, q, now);
    hide Decided;
    forall i | 0 <= i < |ds'|
      ensures ds'[i].supersededAt.None? <==> forall j :: i < j < |ds'| ==> !SameSubject(ds'[i], ds'[j])
    {
      LatestStaysActive(ds, q, now, i);
    }
    forall j | 0 <= j < |ds'| && ds'[j].supersedes.Some?
      ensures
        var i := ds'[j].supersedes.value;
        && i < j && SameSubject(ds'[i], ds'[j]) && forall k :: i < k < j ==> !SameSubject(ds'[i], ds'[k])
    {
      LinksNameTheActive(ds, q, now, j);
    }
  }

  lemma {:induction false} StepKeepsDecisions(s: Store, step: Step)
    requires DecisionsOk(s.decisions)
    ensures DecisionsOk(Apply(s, step).decisions) && HistoryGrows(s.decisions, Apply(s, step).decisions)
  {
    DecisionsAfter(s, step);
    match step
    case Decide(q, now) =>
      if DecisionRefusal(s, q).None? {
        DecidedKeepsDecisions(s.decisions, q, now);
        OneActive(s.decisions, q, now);
      }
    case CastVote(id, v, now) =>
      if VoteRefusal(s, id, v).None? && ReachesQuorum(s.rounds[id], v) {
        DecidedKeepsDecisions(s.decisions, ConsensusRequest(s.rounds[id], v.verifier), now);
        OneActive(s.decisions, ConsensusRequest(s.rounds[id], v.verifier), now);
      }
    case _ =>
  }

  // ---- Every reachable store ----

  /** What holds of every store, however lifecycles are changed. */
  ghost predicate Sound(s: Store) {
    RowsOk(s) && RoundsSound(s) && DecisionsOk(s.decisions) && forall c :: PayOk(s, c)
  }

  ghost predicate Inv(s: Store) {
    Sound(s) && ConsensusOk(s)
  }

  lemma {:induction false} StepKeepsSound(s: Store, step: Step)
    requires Sound(s)
    ensures Sound(Apply(s, step))
  {
    StepKeepsRows(s, step);
    StepKeepsRounds(s, step);
    StepKeepsDecisions(s, step);
    forall d ensures PayOk(Apply(s, step), d) { StepKeepsPay(s, step, d); }
    assert Sound(Apply(s, step)) by { hide Apply, PayOk, RowsOk, RoundsSound, DecisionsOk; }
    hide *;
  }

  lemma {:induction false} StepKeepsInv(s: Store, step: Step)
    requires Inv(s)
    ensures Inv(Apply(s, step))
  {
    StepKeepsSound(s, step);
    StepKeepsConsensus(s, step);
    hide Apply, Sound, ConsensusOk;
  }

  lemma {:induction false} RunKeepsInv(s: Store, steps: seq<Step>)
    requires Inv(s)
    ensures Inv(Run(s, steps))
  {
    hide Inv, Apply;
    if steps != [] {
      RunKeepsInv(s, steps[..|steps| - 1]);
      StepKeepsInv(Run(s, steps[..|steps| - 1]), steps[|steps| - 1]);
    }
  }

  lemma {:induction false} RunGrows(s: Store, steps: seq<Step>)
    ensures RowsGrow(s, Run(s, steps)) && RoundsGrow(s, Run(s, steps))
  {
    if steps != [] {
      RunGrows(s, steps[..|steps| - 1]);
      StepGrows(Run(s, steps[..|steps| - 1]), steps[|steps| - 1]);
      hide Apply;
    }
  }

  lemma {:induction false} EmptyStoreOk()
    ensures Inv(EMPTY_STORE)
  {
  }

  // ---- Main results ----

  /** What a disbursement of the case rests on: a round of its own case and tenant with exactly the required
      number of approvals, cast by different users who hold a required role, on a completed execution. The
      ledger holds its authorisation once, then one outcome if and only if its status is terminal, and
      nothing of the kind without a disbursement. */
  predicate PaidOnQuorum(s: Store, c: CaseId) {
    if c !in s.disbursements then PayEvents(s.ledger, c) == [] else
      var d := s.disbursements[c];
      && d.roundId < |s.rounds|
      && var r := s.rounds[d.roundId];
      && r.caseId == c && r.tenantId == d.tenantId && r.consensusReached
      && Approvals(r.votes) == r.requiredVerifiers > 0
      && (forall i, j :: 0 <= i < j < |r.votes| ==> r.votes[i].verifier != r.votes[j].verifier)
      && (forall i :: 0 <= i < |r.votes| ==> MayVerify(s, r, r.votes[i].verifier))
      && CompletedIn(s, d.tenantId, c) && CaseIn(s, d.tenantId, c)
      && d.status in {Authorized, Paid, Failed}
      && PayEvents(s.ledger, c) == ExpectedEvents(d.status)
  }

  lemma {:induction false} SoundPays(s: Store, c: CaseId)
    requires Sound(s)
    ensures PaidOnQuorum(s, c)
  {
    hide PayEvents, MayVerify, Approvals;
    assert PayOk(s, c);
    if c in s.disbursements { assert RoundSound(s, s.rounds[s.disbursements[c].roundId]); }
  }

  /** No payout without quorum, and as long as no repair sets lifecycles back a paid case stays verified. */
  lemma {:induction false} PaidCasesStayVerified(steps: seq<Step>, c: CaseId)
    ensures
      var s := Run(EMPTY_STORE, steps);
      && PaidOnQuorum(s, c)
      && (c in s.disbursements ==> c in s.cases && s.cases[c].lifecycle in {Verified, Completed})
  {
    EmptyStoreOk();
    RunKeepsInv(EMPTY_STORE, steps);
    var s := Run(EMPTY_STORE, steps);
    SoundPays(s, c);
    hide Run, PayEvents, MayVerify, Approvals, Sound;
    if c in s.disbursements { assert s.rounds[s.disbursements[c].roundId].consensusReached; }
  }

  /** At most one open round per tenant and case, at most one consensus per case: never three rounds. */
  lemma {:induction false} AtMostTwoRounds(steps: seq<Step>)
    ensures
      var rounds := Run(EMPTY_STORE, steps).rounds;
      && (forall i, j :: 0 <= i < j < |rounds| && rounds[i].caseId == rounds[j].caseId ==>
            && !(rounds[i].consensusReached && rounds[j].consensusReached)
            && (rounds[i].tenantId == rounds[j].tenantId ==> rounds[i].consensusReached != rounds[j].consensusReached))
      && (forall i, j, k :: 0 <= i < j < k < |rounds| ==>
            !(rounds[i].caseId == rounds[j].caseId == rounds[k].caseId
              && rounds[i].tenantId == rounds[j].tenantId == rounds[k].tenantId))
  {
    EmptyStoreOk();
    RunKeepsInv(EMPTY_STORE, steps);
    var s := Run(EMPTY_STORE, steps);
    assert RoundsSound(s) && ConsensusOk(s);
    hide Run, RoundSound, Sound;
    var rounds := s.rounds;
    assert forall i, j :: 0 <= i < j < |rounds| ==> NotBothOpen(rounds[i], rounds[j]);
    forall i, j, k | 0 <= i < j < k < |rounds|
      ensures !(rounds[i].caseId == rounds[j].caseId == rounds[k].caseId
                && rounds[i].tenantId == rounds[j].tenantId == rounds[k].tenantId)
    {
      assert NotBothOpen(rounds[i], rounds[j]) && NotBothOpen(rounds[i], rounds[k])
          && NotBothOpen(rounds[j], rounds[k]);
    }
  }

  /** Consensus is for ever: however the run continues, the round stays as it is and the case stays
      VERIFIED or COMPLETED. */
  lemma {:induction false} ConsensusIsForever(steps: seq<Step>, more: seq<Step>, id: nat)
    ensures
      var (s, s') := (Run(EMPTY_STORE, steps), Run(Run(EMPTY_STORE, steps), more));
      id < |s.rounds| && s.rounds[id].consensusReached ==>
        var r := s.rounds[id];
        && id < |s'.rounds| && s'.rounds[id] == r
        && CaseIn(s', r.tenantId, r.caseId) && s'.cases[r.caseId].lifecycle in {Verified, Completed}
  {
    EmptyStoreOk();
    RunKeepsInv(EMPTY_STORE, steps);
    var s := Run(EMPTY_STORE, steps);
    RunKeepsInv(s, more);
    RunGrows(s, more);
    assert RoundsGrow(s, Run(s, more));
    hide Run, RowsGrow;
    if id < |s.rounds| && s.rounds[id].consensusReached {
      assert RoundSound(Run(s, more), Run(s, more).rounds[id]);
    }
  }

  /** A second quorum-reaching vote for a case always rolls back, in whatever round it is cast. */
  lemma {:induction false} SecondQuorumRollsBack(steps: seq<Step>, id: nat, j: nat, v: Vote, now: int)
    ensures
      var s := Run(EMPTY_STORE, steps);
      && id < |s.rounds| && s.rounds[id].consensusReached
      && j < |s.rounds| && s.rounds[j].caseId == s.rounds[id].caseId && ReachesQuorum(s.rounds[j], v) ==>
        VoteRefusal(s, j, v).Some? && Run(EMPTY_STORE, steps + [CastVote(j, v, now)]) == s
  {
    hide ReachesQuorum, VoteRefusal, Voted, ConsensusOk, Sound;
    EmptyStoreOk();
    RunKeepsInv(EMPTY_STORE, steps);
    var s := Run(EMPTY_STORE, steps);
    RunSnoc(EMPTY_STORE, steps, CastVote(j, v, now));
    hide Run;
    if && id < |s.rounds| && s.rounds[id].consensusReached
       && j < |s.rounds| && s.rounds[j].caseId == s.rounds[id].caseId && ReachesQuorum(s.rounds[j], v) {
      if VoteRefusal(s, j, v).None? { SecondConsensusHasNoEdge(s, j, v, id); }
    }
  }

  lemma {:induction false} RunSnoc(s: Store, steps: seq<Step>, step: Step)
    ensures Run(s, steps + [step]) == Apply(Run(s, steps), step)
  {
    hide Apply;
    assert (steps + [step])[..|steps|] == steps;
  }

  // ---- Cases created at intake ----

  /** The round intake opened: nobody holds a role it asks for, since it asks for none, and it is the
      only round of the case in its tenant. */
  predicate Stuck(s: Store, c: CaseId, id: nat) {
    && id < |s.rounds| && c in s.cases
    && s.rounds[id] == NewRound(s.cases[c].tenantId, c, 2, {})
    && forall i :: 0 <= i < |s.rounds| && s.rounds[i].caseId == c && s.rounds[i].tenantId == s.cases[c].tenantId ==>
      i == id
  }

  lemma {:induction false} NoVoteWithoutRoles(s: Store, id: nat, v: Vote)
    requires id < |s.rounds| && s.rounds[id].requiredRoles == {}
    ensures VoteRefusal(s, id, v).Some?
  {
  }

  lemma {:induction false} VotesKeepStuck(s: Store, id: nat, v: Vote, now: int, c: CaseId, stuck: nat)
    requires Stuck(s, c, stuck) && VoteRefusal(s, id, v).None?
    ensures Stuck(Voted(s, id, v, now), c, stuck)
  {
    if id == stuck { NoVoteWithoutRoles(s, id, v); }
    VotedParts(s, id, v, now);
    VoteGrows(s, id, v, now);
    hide Voted, VoteRefusal, Approvals;
  }

  lemma {:induction false} OpeningKeepsStuck(s: Store, step: Step, c: CaseId, stuck: nat)
    requires Stuck(s, c, stuck) && RowsOk(s) && RoundsSound(s)
    requires step.IntakeBootstrap? || step.RequestRound? || step.CompleteExecution?
    ensures Stuck(Apply(s, step), c, stuck)
  {
    StepGrows(s, step);
    assert IsOpen(s.rounds[stuck], s.cases[c].tenantId, c);
    match step
    case CompleteExecution(t, d, a) =>
      if Apply(s, step).rounds != s.rounds { CompletionOpensRound(s, t, d, a); }
    case _ =>
  }

  lemma {:induction false} StepKeepsStuck(s: Store, step: Step, c: CaseId, stuck: nat)
    requires Stuck(s, c, stuck) && RowsOk(s) && RoundsSound(s)
    ensures Stuck(Apply(s, step), c, stuck)
  {
    match step
    case CastVote(id, v, now) => if VoteRefusal(s, id, v).None? { VotesKeepStuck(s, id, v, now, c, stuck); }
    case IntakeBootstrap(_, _) => OpeningKeepsStuck(s, step, c, stuck);
    case RequestRound(_, _, _, _) => OpeningKeepsStuck(s, step, c, stuck);
    case CompleteExecution(_, _, _) => OpeningKeepsStuck(s, step, c, stuck);
    case _ =>
      StepGrows(s, step);
      UntouchedRounds(s, step);
      hide Apply;
  }

  lemma {:induction false} IntakeIsStuck(s: Store, t: TenantId, c: CaseId)
    requires RoundsSound(s) && c !in s.cases
    ensures Stuck(Apply(s, IntakeBootstrap(t, c)), c, |s.rounds|)
    ensures Apply(s, IntakeBootstrap(t, c)).cases[c].tenantId == t
  {
    forall i | 0 <= i < |s.rounds| ensures s.rounds[i].caseId != c { assert RoundSound(s, s.rounds[i]); }
  }

  lemma {:induction false} StuckIsNeverPaid(s: Store, c: CaseId, stuck: nat)
    requires Sound(s) && Stuck(s, c, stuck)
    ensures c !in s.disbursements
    ensures forall i :: 0 <= i < |s.rounds| && s.rounds[i].caseId == c ==> !s.rounds[i].consensusReached
    ensures s.rounds[stuck] == NewRound(s.cases[c].tenantId, c, 2, {})
  {
    hide MayVerify, Approvals, PayEvents;
    forall i | 0 <= i < |s.rounds| && s.rounds[i].caseId == c ensures !s.rounds[i].consensusReached {
      assert RoundSound(s, s.rounds[i]);
    }
    assert PayOk(s, c);
  }

  // ---- One decision ----

  /** A successful call leaves exactly one active decision under its key, the one it inserted, and its
      effect has taken place; a call that throws, however late, leaves the whole store as it was. */
  lemma {:induction false} DecisionTakesEffectOrNothing(s: Store, q: DecisionRequest, now: int)
    ensures DecisionRefusal(s, q).Some? ==> Apply(s, Decide(q, now)) == s
    ensures DecisionRefusal(s, q).None? ==>
              var s' := Apply(s, Decide(q, now));
              var ds := s'.decisions;
              && |ds| == |s.decisions| + 1 && ds[|s.decisions|].supersedes == q.supersedes
              && (forall i :: 0 <= i < |ds| ==> (ActiveFor(ds[i], q) <==> i == |s.decisions|))
              && EffectTaken(s, s', q)
  {
    OneActive(s.decisions, q, now);
    DecidedRows(s.decisions, q, now);
    hide Decided, Edge;
  }

  /** A verified execution leaves the case VERIFIED. A provisioned verifier leaves the case alone: the one
      user with the address holds a role that exists, or nobody has it and the one invitation names the role. */
  predicate EffectTaken(s: Store, s': Store, q: DecisionRequest) {
    match q.effect
    case ExecutionVerified => q.caseId in s'.cases && s'.cases[q.caseId].lifecycle == Verified
    case ProvisionVerifier(email, roleKey) =>
      var address := (q.tenantId, email);
      && s'.cases == s.cases && s'.ledger == s.ledger && s'.users == s.users && (q.tenantId, roleKey) in s'.roles
      && (if address in s.users
          then (s'.users[address], q.tenantId, roleKey) in s'.userRoles && s'.invites == s.invites
          else s'.userRoles == s.userRoles && address in s'.invites && s'.invites[address] == roleKey)
    case OtherEffect => false
  }

  // ---- The payout theorem is not vacuous ----

  function Officer(): Actor { Actor(System, None, "SYSTEM:OPERATIONS") }

  /** Two verifiers of tenant `t`, and no case yet. */
  predicate Staffed(s: Store, t: TenantId, u: UserId, w: UserId) {
    && (t, "VERIFIER") in s.roles && (u, t, "VERIFIER") in s.userRoles && (w, t, "VERIFIER") in s.userRoles
    && s.cases == map[] && s.executions == map[] && s.rounds == [] && s.disbursements == map[]
  }

  /** A case of tenant `t` with an open execution and evidence, but no verification round yet. */
  predicate AtWork(s: Store, t: TenantId, c: CaseId, u: UserId, w: UserId, l: Lifecycle) {
    && (t, "VERIFIER") in s.roles && (u, t, "VERIFIER") in s.userRoles && (w, t, "VERIFIER") in s.userRoles
    && CaseIn(s, t, c) && s.cases[c].lifecycle == l
    && ExecutionIn(s, t, c) && s.executions[c].status == InProgress && c in s.evidence
    && s.rounds == [] && s.disbursements == map[]
  }

  predicate ReadyToComplete(s: Store, t: TenantId, c: CaseId, u: UserId, w: UserId) {
    AtWork(s, t, c, u, w, Executing)
  }

  function Team(t: TenantId, u: UserId, w: UserId): Store {
    var configured := Apply(EMPTY_STORE, ConfigureRole(t, "VERIFIER"));
    Apply(Apply(configured, GrantRole(u, t, "VERIFIER")), GrantRole(w, t, "VERIFIER"))
  }

  lemma {:induction false} TeamIsStaffed(t: TenantId, u: UserId, w: UserId)
    ensures Staffed(Team(t, u, w), t, u, w)
  {
  }

  lemma {:induction false} WorkBegins(s: Store, t: TenantId, c: CaseId, u: UserId, w: UserId)
    requires Staffed(s, t, u, w)
    ensures
      var started := Apply(Apply(s, CreateCase(t, c)), StartExecution(t, c, Officer()));
      AtWork(Apply(started, AddEvidence(c)), t, c, u, w, Intake)
  {
  }

  lemma {:induction false} WorkMoves(s: Store, t: TenantId, c: CaseId, u: UserId, w: UserId, l: Lifecycle,
                                     target: Lifecycle)
    requires AtWork(s, t, c, u, w, l) && Edge(l, target)
    ensures AtWork(Apply(s, Transition(t, c, target, Officer())), t, c, u, w, target)
  {
    hide Edge, EventFor;
  }

  lemma {:induction false} EdgesToExecuting()
    ensures Edge(Intake, Routed) && Edge(Routed, Accepted) && Edge(Accepted, Executing) && Edge(Executing, Flagged)
  {
  }

  lemma {:induction false} CaseIsPrepared(t: TenantId, c: CaseId, u: UserId, w: UserId) returns (steps: seq<Step>)
    ensures ReadyToComplete(Run(EMPTY_STORE, steps), t, c, u, w)
  {
    var a := Officer();
    assert Run(EMPTY_STORE, []) == EMPTY_STORE;
    assert forall s :: AtWork(s, t, c, u, w, Executing) ==> ReadyToComplete(s, t, c, u, w);
    var s1 := Apply(EMPTY_STORE, ConfigureRole(t, "VERIFIER"));
    var s2 := Apply(s1, GrantRole(u, t, "VERIFIER"));
    var s3 := Apply(s2, GrantRole(w, t, "VERIFIER"));
    assert s3 == Team(t, u, w);
    hide *;
    TeamIsStaffed(t, u, w);
    WorkBegins(s3, t, c, u, w);
    EdgesToExecuting();
    steps := Continue([], ConfigureRole(t, "VERIFIER"), s1);
    steps := Continue(steps, GrantRole(u, t, "VERIFIER"), s2);
    steps := Continue(steps, GrantRole(w, t, "VERIFIER"), s3);
    var s4 := Apply(s3, CreateCase(t, c));
    var s5 := Apply(s4, StartExecution(t, c, a));
    var s6 := Apply(s5, AddEvidence(c));
    steps := Continue(steps, CreateCase(t, c), s4);
    steps := Continue(steps, StartExecution(t, c, a), s5);
    steps := Continue(steps, AddEvidence(c), s6);
    WorkMoves(s6, t, c, u, w, Intake, Routed);
    var s7 := Apply(s6, Transition(t, c, Routed, a));
    WorkMoves(s7, t, c, u, w, Routed, Accepted);
    var s8 := Apply(s7, Transition(t, c, Accepted, a));
    WorkMoves(s8, t, c, u, w, Accepted, Executing);
    var s9 := Apply(s8, Transition(t, c, Executing, a));
    steps := Continue(steps, Transition(t, c, Routed, a), s7);
    steps := Continue(steps, Transition(t, c, Accepted, a), s8);
    steps := Continue(steps, Transition(t, c, Executing, a), s9);
  }

  lemma {:induction false} Continue(steps: seq<Step>, step: Step, after: Store) returns (longer: seq<Step>)
    requires after == Apply(Run(EMPTY_STORE, steps), step)
    ensures longer == steps + [step] && Run(EMPTY_STORE, longer) == after
  {
    RunSnoc(EMPTY_STORE, steps, step);
    longer := steps + [step];
  }

  /** The execution is complete and one round is open, with these votes on it. */
  predicate Voting(s: Store, t: TenantId, c: CaseId, u: UserId, w: UserId, votes: seq<Vote>) {
    && CaseIn(s, t, c) && s.cases[c].lifecycle == Executing && CompletedIn(s, t, c)
    && (u, t, "VERIFIER") in s.userRoles && (w, t, "VERIFIER") in s.userRoles
    && s.rounds == [NewRound(t, c, 2, {"VERIFIER"}).(votes := votes)] && s.disbursements == map[]
  }

  lemma {:induction false} CompletionOpensVoting(s: Store, t: TenantId, c: CaseId, u: UserId, w: UserId)
    requires ReadyToComplete(s, t, c, u, w)
    ensures Voting(Apply(s, CompleteExecution(t, c, Officer())), t, c, u, w, [])
  {
  }

  lemma {:induction false} FirstVote(s: Store, t: TenantId, c: CaseId, u: UserId, w: UserId)
    requires Voting(s, t, c, u, w, [])
    ensures Voting(Apply(s, CastVote(0, Vote(u, Approved), 1)), t, c, u, w, [Vote(u, Approved)])
  {
    assert "VERIFIER" in s.rounds[0].requiredRoles;
    assert Approvals([Vote(u, Approved)]) == 1 by { assert [Vote(u, Approved)][..0] == []; }
    assert s.rounds[0].votes + [Vote(u, Approved)] == [Vote(u, Approved)];
  }

  /** The one round has reached consensus, and nothing has been paid. */
  predicate Agreed(s: Store, t: TenantId, c: CaseId, u: UserId) {
    && CaseIn(s, t, c) && s.cases[c].lifecycle == Verified && CompletedIn(s, t, c) && s.disbursements == map[]
    && (u, t, "VERIFIER") in s.userRoles
    && |s.rounds| == 1 && IsConsensusOf(s.rounds[0], c) && s.rounds[0].tenantId == t
  }

  lemma {:induction false} SecondVote(s: Store, t: TenantId, c: CaseId, u: UserId, w: UserId)
    requires Voting(s, t, c, u, w, [Vote(u, Approved)]) && u != w
    ensures Agreed(Apply(s, CastVote(0, Vote(w, Approved), 2)), t, c, u)
  {
    var votes := [Vote(u, Approved), Vote(w, Approved)];
    assert "VERIFIER" in s.rounds[0].requiredRoles;
    assert Approvals([Vote(u, Approved)]) == 1 by { assert [Vote(u, Approved)][..0] == []; }
    assert Approvals(votes) == 2 by { assert votes[..1] == [Vote(u, Approved)]; }
    assert s.rounds[0].votes + [Vote(w, Approved)] == votes;
    hide Decided;
  }

  lemma {:induction false} PaymentFollows(s: Store, t: TenantId, c: CaseId, u: UserId, success: bool)
    requires Agreed(s, t, c, u)
    ensures
      var s' := Apply(Apply(s, Authorize(t, c, Some(1.0), Officer(), 0)), Settle(t, c, Officer(), success));
      && c in s'.disbursements && s'.disbursements[c].tenantId == t && s'.disbursements[c].cents == 100
      && s'.disbursements[c].status == if success then Paid else Failed
  {
    assert IsLatestConsensus(s, c, 0);
  }

  lemma {:induction false} AgreementIsReachable(t: TenantId, c: CaseId, u: UserId, w: UserId) returns (steps: seq<Step>)
    requires u != w
    ensures Agreed(Run(EMPTY_STORE, steps), t, c, u)
  {
    var a := Officer();
    steps := CaseIsPrepared(t, c, u, w);
    hide *;
    var s0 := Run(EMPTY_STORE, steps);
    CompletionOpensVoting(s0, t, c, u, w);
    var s1 := Apply(s0, CompleteExecution(t, c, a));
    FirstVote(s1, t, c, u, w);
    var s2 := Apply(s1, CastVote(0, Vote(u, Approved), 1));
    SecondVote(s2, t, c, u, w);
    var s3 := Apply(s2, CastVote(0, Vote(w, Approved), 2));
    steps := Continue(steps, CompleteExecution(t, c, a), s1);
    steps := Continue(steps, CastVote(0, Vote(u, Approved), 1), s2);
    steps := Continue(steps, CastVote(0, Vote(w, Approved), 2), s3);
  }

  /** Every case that starts as a bare row has a run that pays it, and one whose payment fails: two verifiers
      approve, the payout of one unit is authorised as a hundred hundredths, and it is settled. */
  lemma {:induction false} PayoutIsReachable(t: TenantId, c: CaseId, u: UserId, w: UserId, success: bool)
    returns (steps: seq<Step>)
    requires u != w
    ensures
      var s := Run(EMPTY_STORE, steps);
      && c in s.disbursements && s.disbursements[c].tenantId == t && s.disbursements[c].cents == 100
      && s.disbursements[c].status == if success then Paid else Failed
  {
    var a := Officer();
    steps := AgreementIsReachable(t, c, u, w);
    hide *;
    var s0 := Run(EMPTY_STORE, steps);
    PaymentFollows(s0, t, c, u, success);
    var s1 := Apply(s0, Authorize(t, c, Some(1.0), a, 0));
    steps := Continue(steps, Authorize(t, c, Some(1.0), a, 0), s1);
    steps := Continue(steps, Settle(t, c, a, success), Apply(s1, Settle(t, c, a, success)));
  }
}
