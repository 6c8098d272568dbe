/** The shared store of verification, decision, execution and disbursement, and for each service the
    condition under which its transaction throws and the store it leaves when it does not. */
module GovernanceStore {
  import opened Common
  import opened CaseLifecycle
  import opened ExecutionProgress
  import opened Ledger

  type RoleKey = string
  type Email = string

  datatype Actor = Actor(kind: ActorKind, userId: Option<UserId>, proof: string)

  datatype VoteStatus = Pending | Approved | Refused

  datatype Vote = Vote(verifier: UserId, status: VoteStatus)

  /** A verification round; its id is its position in the table. */
  datatype Round = Round(
    tenantId: TenantId,
    caseId: CaseId,
    requiredVerifiers: nat,
    requiredRoles: set<RoleKey>,
    consensusReached: bool,
    verifiedAt: int,
    votes: seq<Vote>
  )

  datatype DecisionType = RoutingDecision | VerificationDecision | FlaggingDecision | AppealDecision
    | BudgetDecision | TrancheDecision

  /** A decision; its id is its position in the table. */
  datatype Decision = Decision(
    tenantId: TenantId,
    caseId: CaseId,
    decisionType: DecisionType,
    actorKind: ActorKind,
    actorUserId: Option<UserId>,
    supersedes: Option<nat>,
    supersededAt: Option<int>
  )

  datatype DisbursementStatus = Authorized | ExecutingPayment | Executed | Paid | Failed

  /** At most one per case; the unique case id stands for its own id. */
  datatype Disbursement = Disbursement(tenantId: TenantId, status: DisbursementStatus, cents: int, roundId: nat)

  /** A ledger commit, in commit order. */
  datatype Fact = Fact(tenantId: TenantId, caseId: CaseId, event: EventType)

  datatype CaseRow = CaseRow(tenantId: TenantId, lifecycle: Lifecycle, archived: bool)

  datatype Store = Store(
    cases: map<CaseId, CaseRow>,
    executions: map<CaseId, Execution>,
    evidence: set<CaseId>,                        // cases with evidence on their timeline
    roles: set<(TenantId, RoleKey)>,
    users: map<(TenantId, Email), UserId>,
    userRoles: set<(UserId, TenantId, RoleKey)>,
    invites: map<(TenantId, Email), RoleKey>,
    rounds: seq<Round>,
    decisions: seq<Decision>,
    disbursements: map<CaseId, Disbursement>,
    ledger: seq<Fact>
  )

  const EMPTY_STORE := Store(map[], map[], {}, {}, map[], {}, map[], [], [], map[], [])

  datatype Error =
    | InvalidActor | CaseNotFound | IllegalTransition | ExecutingRequiresExecution
    | RoundNotFound | AlreadyFinalized | RequiresCompletedExecution | NotAuthorizedToVerify | AlreadyVoted
    | HumanDecisionRequiresUser | SupersessionMismatch | DecisionWithoutCase | RoleNotFound | EffectNotImplemented
    | CaseNotFoundOrArchived | ExecutionNotFound | AbortedExecution | EvidenceMissing | VerifierRoleMissing
    | MilestoneNotFound | TenantMismatch | ExecutionNotActive
    | CaseNotVerified | ExecutionMissing | ExecutionNotCompleted | NoConsensus | InvalidAmount
    | DisbursementMissing | DisbursementNotAuthorized

  // ---- Ledger access ----

  /** The actor rules of the ledger's entry schema, after the wrapper has dropped a SYSTEM user id. */
  predicate MayCommit(a: Actor) {
    a.proof != "" && (a.kind == Human ==> a.userId.Some?)
  }

  function Log(s: Store, t: TenantId, c: CaseId, e: EventType): Store {
    s.(ledger := s.ledger + [Fact(t, c, e)])
  }

  predicate CaseIn(s: Store, t: TenantId, c: CaseId) {
    c in s.cases && s.cases[c].tenantId == t
  }

  predicate ExecutionIn(s: Store, t: TenantId, c: CaseId) {
    c in s.executions && s.executions[c].tenantId == t
  }

  predicate CompletedIn(s: Store, t: TenantId, c: CaseId) {
    ExecutionIn(s, t, c) && s.executions[c].status == Finished
  }

  // ---- Lifecycle transition ----

  function TransitionRefusal(s: Store, t: TenantId, c: CaseId, target: Lifecycle, a: Actor): Option<Error> {
    if !MayCommit(a) || (a.kind == System && a.userId.Some?) then Some(InvalidActor)
    else if !CaseIn(s, t, c) then Some(CaseNotFound)
    else if !Edge(s.cases[c].lifecycle, target) then Some(IllegalTransition)
    else if target == Executing && !ExecutionIn(s, t, c) then Some(ExecutingRequiresExecution)
    else None
  }

  function Transitioned(s: Store, t: TenantId, c: CaseId, target: Lifecycle): Store
    requires c in s.cases
  {
    Log(s.(cases := s.cases[c := s.cases[c].(lifecycle := target)]), t, c, EventFor(target))
  }

  // ---- Decisions ----

  /** What a decision sets off. The orchestrator rejects every other kind of effect. */
  datatype Effect = ExecutionVerified | ProvisionVerifier(email: Email, roleKey: RoleKey) | OtherEffect

  datatype DecisionRequest = DecisionRequest(
    tenantId: TenantId,
    caseId: CaseId,
    decisionType: DecisionType,
    actorKind: ActorKind,
    actorUserId: Option<UserId>,
    supersedes: Option<nat>,
    effect: Effect
  )

  predicate SameKey(d: Decision, q: DecisionRequest) {
    d.tenantId == q.tenantId && d.caseId == q.caseId && d.decisionType == q.decisionType
  }

  predicate ActiveFor(d: Decision, q: DecisionRequest) {
    SameKey(d, q) && d.supersededAt.None?
  }

  function EffectActor(q: DecisionRequest): Actor {
    Actor(q.actorKind, q.actorUserId, "AUTHORITATIVE_DECISION")
  }

  function EffectRefusal(s: Store, q: DecisionRequest): Option<Error> {
    match q.effect
    case ExecutionVerified => TransitionRefusal(s, q.tenantId, q.caseId, Verified, EffectActor(q))
    case ProvisionVerifier(_, roleKey) => if (q.tenantId, roleKey) in s.roles then None else Some(RoleNotFound)
    case OtherEffect => Some(EffectNotImplemented)
  }

  /** A verified execution moves the case; a provisioned verifier gets the role, or an invitation that
      replaces any earlier one when nobody in the tenant has the address. */
  function EffectApplied(s: Store, q: DecisionRequest): Store
    requires q.caseId in s.cases
  {
    match q.effect
    case ExecutionVerified => Transitioned(s, q.tenantId, q.caseId, Verified)
    case ProvisionVerifier(email, roleKey) =>
      var address := (q.tenantId, email);
      if address in s.users then s.(userRoles := s.userRoles + {(s.users[address], q.tenantId, roleKey)})
      else s.(invites := s.invites[address := roleKey])
    case OtherEffect => s
  }

  /** A decision row refers to its case, so none can be written for a case that does not exist. */
  function DecisionRefusal(s: Store, q: DecisionRequest): Option<Error> {
    if q.actorKind == Human && q.actorUserId.None? then Some(HumanDecisionRequiresUser)
    else if q.supersedes.Some? && !(q.supersedes.value < |s.decisions| && ActiveFor(s.decisions[q.supersedes.value], q))
    then Some(SupersessionMismatch)
    else if q.caseId !in s.cases then Some(DecisionWithoutCase)
    else EffectRefusal(s, q)
  }

  function SupersededBy(ds: seq<Decision>, q: DecisionRequest, now: int): (r: seq<Decision>)
    ensures |r| == |ds|
    ensures forall i :: 0 <= i < |ds| ==>
              r[i] == if ActiveFor(ds[i], q) then ds[i].(supersededAt := Some(now)) else ds[i]
  {
    seq(|ds|, i requires 0 <= i < |ds| =>
      if ActiveFor(ds[i], q) then ds[i].(supersededAt := Some(now)) else ds[i])
  }

  /** The decision table after superseding what was active and inserting the new decision. */
  function Decided(ds: seq<Decision>, q: DecisionRequest, now: int): (r: seq<Decision>)
    ensures |r| == |ds| + 1
  {
    SupersededBy(ds, q, now)
    + [Decision(q.tenantId, q.caseId, q.decisionType, q.actorKind,
                if q.actorKind == Human then q.actorUserId else None, q.supersedes, None)]
  }

  function DecisionApplied(s: Store, q: DecisionRequest, now: int): Store
    requires q.caseId in s.cases
  {
    EffectApplied(s.(decisions := Decided(s.decisions, q, now)), q)
  }

  // ---- Votes ----

  function Approvals(votes: seq<Vote>): nat {
    if votes == [] then 0
    else Approvals(votes[..|votes| - 1]) + if votes[|votes| - 1].status == Approved then 1 else 0
  }

  predicate HasVoted(votes: seq<Vote>, u: UserId) {
    exists i :: 0 <= i < |votes| && votes[i].verifier == u
  }

  predicate MayVerify(s: Store, r: Round, u: UserId) {
    exists k :: k in r.requiredRoles && (u, r.tenantId, k) in s.userRoles
  }

  predicate ReachesQuorum(r: Round, v: Vote) {
    Approvals(r.votes + [v]) >= r.requiredVerifiers
  }

  function ConsensusRequest(r: Round, u: UserId): DecisionRequest {
    DecisionRequest(r.tenantId, r.caseId, VerificationDecision, Human, Some(u), None, ExecutionVerified)
  }

  function VoteRefusal(s: Store, id: nat, v: Vote): Option<Error> {
    if id >= |s.rounds| then Some(RoundNotFound)
    else
      var r := s.rounds[id];
      if r.consensusReached then Some(AlreadyFinalized)
      else if !CompletedIn(s, r.tenantId, r.caseId) then Some(RequiresCompletedExecution)
      else if !MayVerify(s, r, v.verifier) then Some(NotAuthorizedToVerify)
      else if HasVoted(r.votes, v.verifier) then Some(AlreadyVoted)
      else if ReachesQuorum(r, v) then DecisionRefusal(s, ConsensusRequest(r, v.verifier))
      else None
  }

  /** The vote on record, before the quorum is looked at. */
  function VoteRecorded(s: Store, id: nat, v: Vote): Store
    requires id < |s.rounds|
  {
    var r := s.rounds[id];
    Log(s.(rounds := s.rounds[id := r.(votes := r.votes + [v])]), r.tenantId, r.caseId, VerificationSubmitted)
  }

  function RoundFinalized(s: Store, id: nat, now: int): Store
    requires id < |s.rounds|
  {
    s.(rounds := s.rounds[id := s.rounds[id].(consensusReached := true, verifiedAt := now)])
  }

  function Voted(s: Store, id: nat, v: Vote, now: int): Store
    requires VoteRefusal(s, id, v).None?
  {
    var recorded := VoteRecorded(s, id, v);
    if !ReachesQuorum(s.rounds[id], v) then recorded
    else DecisionApplied(RoundFinalized(recorded, id, now), ConsensusRequest(s.rounds[id], v.verifier), now)
  }

  // ---- Opening rounds ----

  predicate IsOpen(r: Round, t: TenantId, c: CaseId) {
    r.tenantId == t && r.caseId == c && !r.consensusReached
  }

  predicate HasOpen(s: Store, t: TenantId, c: CaseId) {
    exists i :: 0 <= i < |s.rounds| && IsOpen(s.rounds[i], t, c)
  }

  function NewRound(t: TenantId, c: CaseId, required: nat, roles: set<RoleKey>): Round {
    Round(t, c, required, roles, false, 0, [])
  }

  function Opened(s: Store, t: TenantId, c: CaseId, required: nat, roles: set<RoleKey>, e: EventType): Store {
    Log(s.(rounds := s.rounds + [NewRound(t, c, required, roles)]), t, c, e)
  }

  /** The verification phase opened after an execution completes. */
  function InitializeRefusal(s: Store, t: TenantId, c: CaseId, a: Actor): Option<Error> {
    if HasOpen(s, t, c) then None
    else if !CompletedIn(s, t, c) then Some(RequiresCompletedExecution)
    else if (t, "VERIFIER") !in s.roles then Some(VerifierRoleMissing)
    else if !MayCommit(a) then Some(InvalidActor)
    else None
  }

  function Initialized(s: Store, t: TenantId, c: CaseId): Store {
    if HasOpen(s, t, c) then s else Opened(s, t, c, 2, {"VERIFIER"}, VerificationStarted)
  }

  /** A requested round. The case must exist; its tenant is not compared with the caller's. */
  function RequestRefusal(s: Store, t: TenantId, c: CaseId): Option<Error> {
    if !HasOpen(s, t, c) && c !in s.cases then Some(CaseNotFound) else None
  }

  function Requested(s: Store, t: TenantId, c: CaseId, required: nat, roles: set<RoleKey>): Store {
    if HasOpen(s, t, c) then s else Opened(s, t, c, required, roles, VerificationRequested)
  }

  // ---- Executions ----

  function StartRefusal(s: Store, t: TenantId, c: CaseId, a: Actor): Option<Error> {
    if !CaseIn(s, t, c) || s.cases[c].archived then Some(CaseNotFoundOrArchived)
    else if c in s.executions then None
    else if !MayCommit(a) then Some(InvalidActor)
    else None
  }

  function ExecutionBegun(s: Store, t: TenantId, c: CaseId): Store {
    if c in s.executions then s
    else Log(s.(executions := s.executions[c := Execution(t, InProgress, SEEDED)]), t, c, ExecutionStarted)
  }

  function MarkFinished(s: Store, t: TenantId, c: CaseId): Store
    requires c in s.executions
  {
    Log(s.(executions := s.executions[c := s.executions[c].(status := Finished)]), t, c, ExecutionCompleted)
  }

  function CompleteRefusal(s: Store, t: TenantId, c: CaseId, a: Actor): Option<Error> {
    if !ExecutionIn(s, t, c) then Some(ExecutionNotFound)
    else if s.executions[c].status == Finished then None
    else if s.executions[c].status == Aborted then Some(AbortedExecution)
    else if c !in s.evidence then Some(EvidenceMissing)
    else if !MayCommit(a) then Some(InvalidActor)
    else InitializeRefusal(MarkFinished(s, t, c), t, c, a)
  }

  function ExecutionDone(s: Store, t: TenantId, c: CaseId): Store
    requires c in s.executions
  {
    if s.executions[c].status == Finished then s else Initialized(MarkFinished(s, t, c), t, c)
  }

  function MilestoneRefusal(s: Store, t: TenantId, c: CaseId, i: nat): Option<Error> {
    if c !in s.executions || i >= |s.executions[c].milestones| then Some(MilestoneNotFound)
    else if s.executions[c].tenantId != t then Some(TenantMismatch)
    else if Complete(s.executions[c], i).None? then Some(ExecutionNotActive)
    else None
  }

  function MilestoneDone(s: Store, t: TenantId, c: CaseId, i: nat): Store
    requires MilestoneRefusal(s, t, c, i).None?
  {
    var (e, events) := Complete(s.executions[c], i).value;
    s.(executions := s.executions[c := e],
       ledger := s.ledger + seq(|events|, k requires 0 <= k < |events| => Fact(t, c, events[k])))
  }

  /** A recorded delivery: creates an execution without milestones when the case has none. */
  function DeliveryRefusal(s: Store, t: TenantId, c: CaseId): Option<Error> {
    if !CaseIn(s, t, c) then Some(CaseNotFound) else None
  }

  function Delivered(s: Store, t: TenantId, c: CaseId): Store {
    var s' := if c in s.executions then s else s.(executions := s.executions[c := Execution(t, Created, [])]);
    Log(s', t, c, ExecutionProgressRecorded)
  }

  // ---- Disbursements ----

  /** Math.round(amount * 100): the amount in hundredths, halves rounded up. */
  function ToCents(amount: real): int {
    (amount * 100.0 + 0.5).Floor
  }

  /** The nearest number of hundredths, halves upwards. An accepted amount can still round to nothing:
      the guard compares the amount with zero, not the hundredths. */
  lemma {:induction false} CentsAreNearest(amount: real)
    ensures -0.5 <= amount * 100.0 - ToCents(amount) as real < 0.5
    ensures amount > 0.0 ==> ToCents(amount) >= 0 && (ToCents(amount) == 0 <==> amount < 0.005)
  {
  }

  predicate IsConsensusOf(r: Round, c: CaseId) {
    r.caseId == c && r.consensusReached
  }

  /** The latest consensus of the case, if there is one. */
  predicate IsLatestConsensus(s: Store, c: CaseId, id: nat) {
    && id < |s.rounds| && IsConsensusOf(s.rounds[id], c)
    && forall j :: 0 <= j < |s.rounds| && IsConsensusOf(s.rounds[j], c) ==>
      s.rounds[j].verifiedAt <= s.rounds[id].verifiedAt
  }

  predicate HasConsensus(s: Store, c: CaseId) {
    exists i :: 0 <= i < |s.rounds| && IsConsensusOf(s.rounds[i], c)
  }

  function AuthorizeRefusal(s: Store, t: TenantId, c: CaseId, amount: Option<real>, a: Actor): Option<Error>
    requires c !in s.disbursements
  {
    if !CaseIn(s, t, c) then Some(CaseNotFound)
    else if s.cases[c].lifecycle != Verified then Some(CaseNotVerified)
    else if c !in s.executions then Some(ExecutionMissing)
    else if s.executions[c].status != Finished then Some(ExecutionNotCompleted)
    else if !HasConsensus(s, c) then Some(NoConsensus)
    else if amount.None? || amount.value <= 0.0 then Some(InvalidAmount)
    else if !MayCommit(a) then Some(InvalidActor)
    else None
  }

  function AuthorizedStore(s: Store, t: TenantId, c: CaseId, amount: real, id: nat): Store {
    Log(s.(disbursements := s.disbursements[c := Disbursement(t, Authorized, ToCents(amount), id)]),
        t, c, DisbursementAuthorized)
  }

  function ExecuteRefusal(s: Store, c: CaseId, a: Actor): Option<Error> {
    if c !in s.disbursements then Some(DisbursementMissing)
    else if s.disbursements[c].status != Authorized then Some(DisbursementNotAuthorized)
    else if !MayCommit(a) then Some(InvalidActor)
    else None
  }

  /** The caller's tenant is written to the ledger; the disbursement is found by id alone. */
  function Settled(s: Store, t: TenantId, c: CaseId, success: bool): Store
    requires c in s.disbursements
  {
    Log(s.(disbursements := s.disbursements[c := s.disbursements[c].(status := if success then Paid else Failed)]),
        t, c, if success then DisbursementCompleted else DisbursementFailed)
  }

  // ---- Case creation ----

  /** Intake creates the case, an open round without required roles, and the ledger event. */
  function IntakeCase(s: Store, t: TenantId, c: CaseId): Store {
    Log(s.(cases := s.cases[c := CaseRow(t, Intake, false)], rounds := s.rounds + [NewRound(t, c, 2, {})]),
        t, c, CaseCreated)
  }
}
