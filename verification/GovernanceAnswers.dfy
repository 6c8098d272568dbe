/** When each service accepts a call and what it leaves, told on rows and ledger alone: a second definition of
    the services, for every store and every argument. */
module GovernanceAnswers {
  import opened Common
  import opened CaseLifecycle
  import opened ExecutionProgress
  import opened GovernanceStore
  import opened GovernanceRuns
  import Ledger

  type TenantId = Ledger.TenantId
  type CaseId = Ledger.CaseId
  type UserId = Ledger.UserId

  /** The actor can be recorded: it has a proof, and a human has a user id. */
  predicate Named(a: Actor) {
    a.proof != "" && (a.kind == Ledger.Human ==> a.userId.Some?)
  }

  // ---- Lifecycle ----

  predicate TransitionAccepted(s: Store, t: TenantId, c: CaseId, target: Lifecycle, a: Actor) {
    && Named(a) && (a.kind == Ledger.System ==> a.userId.None?)
    && c in s.cases && s.cases[c].tenantId == t && LawfulMove(s.cases[c].lifecycle, target)
    && (target == Executing ==> c in s.executions && s.executions[c].tenantId == t)
  }

  lemma {:induction false} TransitionAnswer(s: Store, t: TenantId, c: CaseId, target: Lifecycle, a: Actor)
    ensures
      var s' := Apply(s, Transition(t, c, target, a));
      if TransitionAccepted(s, t, c, target, a) then
        exists e :: (s.cases[c].lifecycle, target, e) in LAWFUL
                    && s' == s.(cases := s.cases[c := s.cases[c].(lifecycle := target)],
                                ledger := s.ledger + [Fact(t, c, e)])
      else s' == s
  {
    if c in s.cases { GuardIsLaw(s.cases[c].lifecycle, target); }
    hide Edge, LawfulMove, EventFor;
  }

  lemma {:induction false} TransitionErrors(s: Store, t: TenantId, c: CaseId, target: Lifecycle, a: Actor)
    ensures
      var r := TransitionRefusal(s, t, c, target, a);
      if !(Named(a) && (a.kind == Ledger.System ==> a.userId.None?)) then r == Some(InvalidActor)
      else if !(c in s.cases && s.cases[c].tenantId == t) then r == Some(CaseNotFound)
      else if !LawfulMove(s.cases[c].lifecycle, target) then r == Some(IllegalTransition)
      else if target == Executing && !(c in s.executions && s.executions[c].tenantId == t)
      then r == Some(ExecutingRequiresExecution)
      else r == None
  {
    if c in s.cases { GuardIsLaw(s.cases[c].lifecycle, target); }
    hide Edge, LawfulMove;
  }

  // ---- Decisions ----

  /** The active decisions of the key have been superseded and one decision has been added. */
  predicate Superseding(ds: seq<Decision>, ds': seq<Decision>, d: Decision, now: int) {
    && |ds'| == |ds| + 1 && ds'[|ds|] == d && d.supersededAt == None
    && forall i :: 0 <= i < |ds| ==>
         ds'[i] == if ds[i].tenantId == d.tenantId && ds[i].caseId == d.caseId && ds[i].decisionType == d.decisionType
                      && ds[i].supersededAt == None
                   then ds[i].(supersededAt := Some(now)) else ds[i]
  }

  function DecisionOf(q: DecisionRequest): Decision {
    Decision(q.tenantId, q.caseId, q.decisionType, q.actorKind,
             if q.actorKind == Ledger.Human then q.actorUserId else None, q.supersedes, None)
  }

  lemma {:induction false} DecidedSupersedes(ds: seq<Decision>, q: DecisionRequest, now: int)
    ensures Superseding(ds, Decided(ds, q, now), DecisionOf(q), now)
  {
  }

  /** What the request names for replacement, if anything, is an active decision of its key. */
  predicate ReplacesActive(s: Store, q: DecisionRequest) {
    q.supersedes.Some? ==>
      && q.supersedes.value < |s.decisions|
      && var d := s.decisions[q.supersedes.value];
      && d.tenantId == q.tenantId && d.caseId == q.caseId
      && d.decisionType == q.decisionType && d.supersededAt == None
  }

  /** What the request itself has to satisfy. */
  predicate RequestAccepted(s: Store, q: DecisionRequest) {
    (q.actorKind == Ledger.Human ==> q.actorUserId.Some?) && ReplacesActive(s, q) && q.caseId in s.cases
  }

  /** What its effect needs besides. */
  predicate EffectAccepted(s: Store, q: DecisionRequest) {
    match q.effect
    case ExecutionVerified =>
      && (q.actorKind == Ledger.System ==> q.actorUserId.None?)
      && q.caseId in s.cases && s.cases[q.caseId].tenantId == q.tenantId
      && s.cases[q.caseId].lifecycle in {Executing, HumanReview}
    case ProvisionVerifier(_, roleKey) => (q.tenantId, roleKey) in s.roles
    case OtherEffect => false
  }

  lemma {:induction false} OnlyTwoWaysToVerified(from: Lifecycle)
    ensures Edge(from, Verified) <==> from in {Executing, HumanReview}
    ensures EventFor(Verified) == VerifiedEvent
  {
  }

  lemma {:induction false} DecisionErrors(s: Store, q: DecisionRequest)
    ensures DecisionRefusal(s, q) == None <==> RequestAccepted(s, q) && EffectAccepted(s, q)
    ensures
      var r := DecisionRefusal(s, q);
      if q.actorKind == Ledger.Human && q.actorUserId.None? then r == Some(HumanDecisionRequiresUser)
      else if !ReplacesActive(s, q) then r == Some(SupersessionMismatch)
      else if q.caseId !in s.cases then r == Some(DecisionWithoutCase)
      else
        match q.effect
        case ExecutionVerified =>
          if q.actorKind == Ledger.System && q.actorUserId.Some? then r == Some(InvalidActor)
          else if s.cases[q.caseId].tenantId != q.tenantId then r == Some(CaseNotFound)
          else r == if EffectAccepted(s, q) then None else Some(IllegalTransition)
        case ProvisionVerifier(_, _) => r == if EffectAccepted(s, q) then None else Some(RoleNotFound)
        case OtherEffect => r == Some(EffectNotImplemented)
  {
    if q.caseId in s.cases { OnlyTwoWaysToVerified(s.cases[q.caseId].lifecycle); }
    hide Edge;
  }

  lemma {:induction false} DecisionAnswer(s: Store, q: DecisionRequest, now: int)
    ensures
      var s' := Apply(s, Decide(q, now));
      if RequestAccepted(s, q) && EffectAccepted(s, q) then
        && Superseding(s.decisions, s'.decisions, DecisionOf(q), now)
        && match q.effect
           case ExecutionVerified =>
             s' == s.(decisions := s'.decisions,
                      cases := s.cases[q.caseId := s.cases[q.caseId].(lifecycle := Verified)],
                      ledger := s.ledger + [Fact(q.tenantId, q.caseId, VerifiedEvent)])
           case ProvisionVerifier(email, roleKey) =>
             var address := (q.tenantId, email);
             if address in s.users
             then s' == s.(decisions := s'.decisions,
                           userRoles := s.userRoles + {(s.users[address], q.tenantId, roleKey)})
             else s' == s.(decisions := s'.decisions, invites := s.invites[address := roleKey])
           case OtherEffect => false
      else s' == s
  {
    DecisionErrors(s, q);
    DecidedSupersedes(s.decisions, q, now);
    if q.caseId in s.cases { OnlyTwoWaysToVerified(s.cases[q.caseId].lifecycle); }
    hide Decided, Superseding, RequestAccepted, DecisionRefusal, EventFor;
  }

  // ---- Votes ----

  /** How many of the votes are approvals. */
  function ApprovedCount(votes: seq<Vote>): nat {
    |set i: nat | i < |votes| && votes[i].status == Approved|
  }

  lemma {:induction false} ApprovalsAreCounted(votes: seq<Vote>)
    ensures Approvals(votes) == ApprovedCount(votes)
  {
    var now := set i: nat | i < |votes| && votes[i].status == Approved;
    if votes == [] {
      assert now == {};
    } else {
      var init, n := votes[..|votes| - 1], |votes| - 1;
      ApprovalsAreCounted(init);
      var before := set i: nat | i < |init| && init[i].status == Approved;
      assert now == if votes[n].status == Approved then before + {n} else before;
    }
  }

  /** A vote the round takes: it is open, its execution is completed, and the voter holds one of its roles and
      has not voted. */
  predicate VoteTaken(s: Store, id: nat, u: UserId) {
    && id < |s.rounds|
    && var r := s.rounds[id];
    && !r.consensusReached
    && r.caseId in s.executions && s.executions[r.caseId].tenantId == r.tenantId
    && s.executions[r.caseId].status == Finished
    && (exists k :: k in r.requiredRoles && (u, r.tenantId, k) in s.userRoles)
    && (forall i :: 0 <= i < |r.votes| ==> r.votes[i].verifier != u)
  }

  predicate IsQuorum(r: Round, v: Vote) {
    ApprovedCount(r.votes + [v]) >= r.requiredVerifiers
  }

  lemma {:induction false} VoteErrors(s: Store, id: nat, v: Vote)
    ensures
      var e := VoteRefusal(s, id, v);
      if id >= |s.rounds| then e == Some(RoundNotFound) else
        var r := s.rounds[id];
        if r.consensusReached then e == Some(AlreadyFinalized)
        else if !(r.caseId in s.executions && s.executions[r.caseId].tenantId == r.tenantId
                  && s.executions[r.caseId].status == Finished)
        then e == Some(RequiresCompletedExecution)
        else if !(exists k :: k in r.requiredRoles && (v.verifier, r.tenantId, k) in s.userRoles)
        then e == Some(NotAuthorizedToVerify)
        else if exists i :: 0 <= i < |r.votes| && r.votes[i].verifier == v.verifier then e == Some(AlreadyVoted)
        else if !IsQuorum(r, v) then e == None
        else e == None <==> r.caseId in s.cases && s.cases[r.caseId].tenantId == r.tenantId
                            && s.cases[r.caseId].lifecycle in {Executing, HumanReview}
  {
    if id < |s.rounds| {
      var r := s.rounds[id];
      ApprovalsAreCounted(r.votes + [v]);
      DecisionErrors(s, ConsensusRequest(r, v.verifier));
    }
    hide DecisionRefusal, ApprovedCount, Approvals;
  }

  /** A vote below the quorum is stored whatever it says; one that reaches it is stored exactly if the case of
      the round's tenant can become verified, together with the consensus, the decision and the move. */
  lemma {:induction false} VoteAnswer(s: Store, id: nat, v: Vote, now: int)
    ensures
      var s' := Apply(s, CastVote(id, v, now));
      if !VoteTaken(s, id, v.verifier) then s' == s else
        var r := s.rounds[id];
        var (t, c) := (r.tenantId, r.caseId);
        if !IsQuorum(r, v) then
          s' == s.(rounds := s.rounds[id := r.(votes := r.votes + [v])],
                   ledger := s.ledger + [Fact(t, c, VerificationSubmitted)])
        else if c in s.cases && s.cases[c].tenantId == t && s.cases[c].lifecycle in {Executing, HumanReview} then
          && s' == s.(rounds := s.rounds[id := r.(votes := r.votes + [v], consensusReached := true, verifiedAt := now)],
                      cases := s.cases[c := s.cases[c].(lifecycle := Verified)],
                      decisions := s'.decisions,
                      ledger := s.ledger + [Fact(t, c, VerificationSubmitted), Fact(t, c, VerifiedEvent)])
          && Superseding(s.decisions, s'.decisions,
               Decision(t, c, VerificationDecision, Ledger.Human, Some(v.verifier), None, None), now)
        else s' == s
  {
    VoteErrors(s, id, v);
    hide VoteRefusal, VoteTaken;
    if VoteRefusal(s, id, v).None? {
      var r := s.rounds[id];
      ApprovalsAreCounted(r.votes + [v]);
      VoteParts(s, id, v, now);
      hide Voted, Approvals, ApprovedCount, Superseding;
      TakenIfAccepted(s, id, v);
    } else if VoteTaken(s, id, v.verifier) {
      TakenOrNot(s, id, v);
    }
  }

  lemma {:induction false} TakenIfAccepted(s: Store, id: nat, v: Vote)
    requires VoteRefusal(s, id, v).None?
    ensures VoteTaken(s, id, v.verifier)
  {
    VoteErrors(s, id, v);
    hide VoteRefusal;
  }

  lemma {:induction false} TakenOrNot(s: Store, id: nat, v: Vote)
    requires VoteRefusal(s, id, v).Some? && VoteTaken(s, id, v.verifier)
    ensures id < |s.rounds| && IsQuorum(s.rounds[id], v)
    ensures
      var r := s.rounds[id];
      !(r.caseId in s.cases && s.cases[r.caseId].tenantId == r.tenantId
        && s.cases[r.caseId].lifecycle in {Executing, HumanReview})
  {
    VoteErrors(s, id, v);
    hide VoteRefusal, IsQuorum;
  }

  lemma {:induction false} VoteParts(s: Store, id: nat, v: Vote, now: int)
    requires VoteRefusal(s, id, v).None?
    ensures
      var (r, s') := (s.rounds[id], Voted(s, id, v, now));
      var (t, c) := (r.tenantId, r.caseId);
      if Approvals(r.votes + [v]) < r.requiredVerifiers then
        s' == s.(rounds := s.rounds[id := r.(votes := r.votes + [v])],
                 ledger := s.ledger + [Fact(t, c, VerificationSubmitted)])
      else
        && c in s.cases
        && s' == s.(rounds := s.rounds[id := r.(votes := r.votes + [v], consensusReached := true, verifiedAt := now)],
                    cases := s.cases[c := s.cases[c].(lifecycle := Verified)],
                    decisions := s'.decisions,
                    ledger := s.ledger + [Fact(t, c, VerificationSubmitted), Fact(t, c, VerifiedEvent)])
        && Superseding(s.decisions, s'.decisions,
             Decision(t, c, VerificationDecision, Ledger.Human, Some(v.verifier), None, None), now)
  {
    var q := ConsensusRequest(s.rounds[id], v.verifier);
    DecidedSupersedes(s.decisions, q, now);
    OnlyTwoWaysToVerified(Executing);
    hide Decided, Superseding, Approvals, MayVerify, HasVoted, Edge, EventFor;
  }

  // ---- Rounds ----

  predicate OpenRound(s: Store, t: TenantId, c: CaseId) {
    exists i :: 0 <= i < |s.rounds| && s.rounds[i].tenantId == t && s.rounds[i].caseId == c
                && !s.rounds[i].consensusReached
  }

  lemma {:induction false} OpenRoundIs(s: Store, t: TenantId, c: CaseId)
    ensures HasOpen(s, t, c) <==> OpenRound(s, t, c)
  {
    if OpenRound(s, t, c) {
      var i :| 0 <= i < |s.rounds| && s.rounds[i].tenantId == t && s.rounds[i].caseId == c
               && !s.rounds[i].consensusReached;
      assert IsOpen(s.rounds[i], t, c);
    }
  }

  /** Opening the verification phase: an open round is kept, otherwise one for two verifiers is opened. */
  lemma {:induction false} OpeningAnswer(s: Store, t: TenantId, c: CaseId, a: Actor)
    ensures
      var r := InitializeRefusal(s, t, c, a);
      if OpenRound(s, t, c) then r == None
      else if !(c in s.executions && s.executions[c].tenantId == t && s.executions[c].status == Finished)
      then r == Some(RequiresCompletedExecution)
      else if (t, "VERIFIER") !in s.roles then r == Some(VerifierRoleMissing)
      else if !Named(a) then r == Some(InvalidActor)
      else r == None
    ensures Initialized(s, t, c) == if OpenRound(s, t, c) then s
                                    else s.(rounds := s.rounds + [Round(t, c, 2, {"VERIFIER"}, false, 0, [])],
                                            ledger := s.ledger + [Fact(t, c, VerificationStarted)])
  {
    OpenRoundIs(s, t, c);
    hide HasOpen, OpenRound;
  }

  lemma {:induction false} RequestAnswer(s: Store, t: TenantId, c: CaseId, required: nat, roles: set<RoleKey>)
    ensures
      var s' := Apply(s, RequestRound(t, c, required, roles));
      if required > 0 && c in s.cases && !OpenRound(s, t, c) then
        s' == s.(rounds := s.rounds + [Round(t, c, required, roles, false, 0, [])],
                 ledger := s.ledger + [Fact(t, c, VerificationRequested)])
      else s' == s
    ensures RequestRefusal(s, t, c)
            == if c !in s.cases && !OpenRound(s, t, c) then Some(CaseNotFound) else None
  {
    OpenRoundIs(s, t, c);
    hide HasOpen, OpenRound;
  }

  // ---- Executions ----

  lemma {:induction false} StartAnswer(s: Store, t: TenantId, c: CaseId, a: Actor)
    ensures
      var s' := Apply(s, StartExecution(t, c, a));
      if c in s.cases && s.cases[c].tenantId == t && !s.cases[c].archived && c !in s.executions && Named(a) then
        s' == s.(executions := s.executions[c :=
                   Execution(t, InProgress, [Milestone(2, false), Milestone(1, false), Milestone(2, false)])],
                 ledger := s.ledger + [Fact(t, c, ExecutionStarted)])
      else s' == s
    ensures
      var r := StartRefusal(s, t, c, a);
      && (r == Some(CaseNotFoundOrArchived) <==> !(c in s.cases && s.cases[c].tenantId == t && !s.cases[c].archived))
      && (r == Some(InvalidActor) <==>
            c in s.cases && s.cases[c].tenantId == t && !s.cases[c].archived && c !in s.executions && !Named(a))
      && r in {None, Some(CaseNotFoundOrArchived), Some(InvalidActor)}
  {
  }

  /** The execution can be closed as such, given whether a round is open already. */
  predicate CompletionAccepted(s: Store, t: TenantId, c: CaseId, a: Actor) {
    && c in s.executions && s.executions[c].tenantId == t
    && s.executions[c].status != Finished && s.executions[c].status != Aborted
    && c in s.evidence && Named(a) && (OpenRound(s, t, c) || (t, "VERIFIER") in s.roles)
  }

  lemma {:induction false} CompletionErrors(s: Store, t: TenantId, c: CaseId, a: Actor)
    ensures
      var r := CompleteRefusal(s, t, c, a);
      if !(c in s.executions && s.executions[c].tenantId == t) then r == Some(ExecutionNotFound)
      else if s.executions[c].status == Finished then r == None
      else if s.executions[c].status == Aborted then r == Some(AbortedExecution)
      else if c !in s.evidence then r == Some(EvidenceMissing)
      else if !Named(a) then r == Some(InvalidActor)
      else if !(OpenRound(s, t, c) || (t, "VERIFIER") in s.roles) then r == Some(VerifierRoleMissing)
      else r == None
  {
    if c in s.executions {
      OpenRoundIs(MarkFinished(s, t, c), t, c);
      assert OpenRound(MarkFinished(s, t, c), t, c) <==> OpenRound(s, t, c);
    }
    hide HasOpen, OpenRound;
  }

  lemma {:induction false} CompletionAnswer(s: Store, t: TenantId, c: CaseId, a: Actor)
    ensures
      var s' := Apply(s, CompleteExecution(t, c, a));
      if CompletionAccepted(s, t, c, a) then
        && var executions := s.executions[c := s.executions[c].(status := Finished)];
        if OpenRound(s, t, c) then
          s' == s.(executions := executions, ledger := s.ledger + [Fact(t, c, ExecutionCompleted)])
        else
          s' == s.(executions := executions,
                   rounds := s.rounds + [Round(t, c, 2, {"VERIFIER"}, false, 0, [])],
                   ledger := s.ledger + [Fact(t, c, ExecutionCompleted), Fact(t, c, VerificationStarted)])
      else s' == s
  {
    CompletionErrors(s, t, c, a);
    if c in s.executions {
      OpenRoundIs(MarkFinished(s, t, c), t, c);
      assert OpenRound(MarkFinished(s, t, c), t, c) <==> OpenRound(s, t, c);
    }
    hide HasOpen, OpenRound, CompleteRefusal;
  }

  lemma {:induction false} MilestoneAnswer(s: Store, t: TenantId, c: CaseId, i: nat)
    requires c in s.executions ==> PositiveWeights(s.executions[c].milestones)
    ensures
      var s' := Apply(s, CompleteMilestone(t, c, i));
      if c in s.executions && s.executions[c].tenantId == t && i < |s.executions[c].milestones|
         && !s.executions[c].milestones[i].completed && s.executions[c].status == InProgress then
        var e := s.executions[c];
        var ms := e.milestones[i := Milestone(e.milestones[i].weight, true)];
        if forall k :: 0 <= k < |ms| ==> ms[k].completed then
          s' == s.(executions := s.executions[c := Execution(t, Finished, ms)],
                   ledger := s.ledger + [Fact(t, c, ExecutionProgressRecorded), Fact(t, c, ExecutionCompleted)])
        else
          s' == s.(executions := s.executions[c := Execution(t, InProgress, ms)],
                   ledger := s.ledger + [Fact(t, c, ExecutionProgressRecorded)])
      else s' == s
    ensures
      var r := MilestoneRefusal(s, t, c, i);
      if !(c in s.executions && i < |s.executions[c].milestones|) then r == Some(MilestoneNotFound)
      else if s.executions[c].tenantId != t then r == Some(TenantMismatch)
      else if !s.executions[c].milestones[i].completed && s.executions[c].status != InProgress
      then r == Some(ExecutionNotActive)
      else r == None
  {
    if c in s.executions && i < |s.executions[c].milestones| {
      WeightsDecide(Mark(s.executions[c], i).milestones);
    }
    hide TotalWeight, CompletedWeight;
    MilestoneStored(s, t, c, i);
    hide MilestoneDone, MilestoneRefusal;
  }

  lemma {:induction false} MilestoneStored(s: Store, t: TenantId, c: CaseId, i: nat)
    ensures MilestoneRefusal(s, t, c, i).None? ==>
              var (e, events) := Complete(s.executions[c], i).value;
              var s' := MilestoneDone(s, t, c, i);
              && s' == s.(executions := s.executions[c := e], ledger := s'.ledger)
              && |s'.ledger| == |s.ledger| + |events| && s.ledger <= s'.ledger
              && forall k :: 0 <= k < |events| ==> s'.ledger[|s.ledger| + k] == Fact(t, c, events[k])
  {
    hide Complete;
  }

  lemma {:induction false} DeliveryAnswer(s: Store, t: TenantId, c: CaseId)
    ensures
      var s' := Apply(s, RecordDelivery(t, c));
      if c in s.cases && s.cases[c].tenantId == t then
        s' == s.(executions := if c in s.executions then s.executions else s.executions[c := Execution(t, Created, [])],
                 ledger := s.ledger + [Fact(t, c, ExecutionProgressRecorded)])
      else s' == s
    ensures DeliveryRefusal(s, t, c) == if c in s.cases && s.cases[c].tenantId == t then None else Some(CaseNotFound)
  {
  }

  // ---- Disbursements ----

  /** A consensus round of the case, and none of its consensus rounds is later. */
  predicate LatestAgreement(s: Store, c: CaseId, id: nat) {
    && id < |s.rounds| && s.rounds[id].caseId == c && s.rounds[id].consensusReached
    && forall j :: 0 <= j < |s.rounds| && s.rounds[j].caseId == c && s.rounds[j].consensusReached ==>
         s.rounds[j].verifiedAt <= s.rounds[id].verifiedAt
  }

  predicate PayoutAccepted(s: Store, t: TenantId, c: CaseId, amount: Option<real>, a: Actor) {
    && c !in s.disbursements && c in s.cases && s.cases[c].tenantId == t && s.cases[c].lifecycle == Verified
    && c in s.executions && s.executions[c].status == Finished
    && amount.Some? && amount.value > 0.0 && Named(a)
  }

  lemma {:induction false} LatestIs(s: Store, c: CaseId, id: nat)
    ensures IsLatestConsensus(s, c, id) <==> LatestAgreement(s, c, id)
    ensures LatestAgreement(s, c, id) ==> HasConsensus(s, c)
  {
    if LatestAgreement(s, c, id) { assert IsConsensusOf(s.rounds[id], c); }
  }

  /** The row holds the hundredths nearest to the amount, rests on the latest consensus and is AUTHORIZED. */
  lemma {:induction false} AuthorizeAnswer(s: Store, t: TenantId, c: CaseId, amount: Option<real>, a: Actor, id: nat)
    ensures
      var s' := Apply(s, Authorize(t, c, amount, a, id));
      if PayoutAccepted(s, t, c, amount, a) && LatestAgreement(s, c, id) then
        && c in s'.disbursements
        && var d := s'.disbursements[c];
        && d == Disbursement(t, Authorized, d.cents, id)
        && -0.5 <= amount.value * 100.0 - d.cents as real < 0.5
        && s' == s.(disbursements := s.disbursements[c := d], ledger := s.ledger + [Fact(t, c, DisbursementAuthorized)])
      else s' == s
  {
    LatestIs(s, c, id);
    if amount.Some? { CentsAreNearest(amount.value); }
    hide IsLatestConsensus, LatestAgreement, HasConsensus, ToCents;
  }

  lemma {:induction false} AuthorizeErrors(s: Store, t: TenantId, c: CaseId, amount: Option<real>, a: Actor)
    requires c !in s.disbursements
    ensures
      var r := AuthorizeRefusal(s, t, c, amount, a);
      if !(c in s.cases && s.cases[c].tenantId == t) then r == Some(CaseNotFound)
      else if s.cases[c].lifecycle != Verified then r == Some(CaseNotVerified)
      else if c !in s.executions then r == Some(ExecutionMissing)
      else if s.executions[c].status != Finished then r == Some(ExecutionNotCompleted)
      else if !exists i :: 0 <= i < |s.rounds| && s.rounds[i].caseId == c && s.rounds[i].consensusReached
      then r == Some(NoConsensus)
      else if !(amount.Some? && amount.value > 0.0) then r == Some(InvalidAmount)
      else if !Named(a) then r == Some(InvalidActor)
      else r == None
  {
    assert HasConsensus(s, c) <==>
      exists i :: 0 <= i < |s.rounds| && s.rounds[i].caseId == c && s.rounds[i].consensusReached by {
      if exists i :: 0 <= i < |s.rounds| && s.rounds[i].caseId == c && s.rounds[i].consensusReached {
        var i :| 0 <= i < |s.rounds| && s.rounds[i].caseId == c && s.rounds[i].consensusReached;
        assert IsConsensusOf(s.rounds[i], c);
      }
    }
    hide HasConsensus;
  }

  /** The recorded outcome is the reported one. */
  lemma {:induction false} SettleAnswer(s: Store, t: TenantId, c: CaseId, a: Actor, success: bool)
    ensures
      var s' := Apply(s, Settle(t, c, a, success));
      if c in s.disbursements && s.disbursements[c].status == Authorized && Named(a) then
        var (status, event) := if success then (Paid, DisbursementCompleted) else (Failed, DisbursementFailed);
        s' == s.(disbursements := s.disbursements[c := s.disbursements[c].(status := status)],
                 ledger := s.ledger + [Fact(t, c, event)])
      else s' == s
    ensures
      var r := ExecuteRefusal(s, c, a);
      if c !in s.disbursements then r == Some(DisbursementMissing)
      else if s.disbursements[c].status != Authorized then r == Some(DisbursementNotAuthorized)
      else if !Named(a) then r == Some(InvalidActor)
      else r == None
  {
  }

  // ---- Cases ----

  lemma {:induction false} IntakeAnswer(s: Store, t: TenantId, c: CaseId)
    ensures
      var s' := Apply(s, IntakeBootstrap(t, c));
      if c !in s.cases then
        s' == s.(cases := s.cases[c := CaseRow(t, Intake, false)],
                 rounds := s.rounds + [Round(t, c, 2, {}, false, 0, [])],
                 ledger := s.ledger + [Fact(t, c, CaseCreated)])
      else s' == s
  {
  }

  /** An archived case can no longer be started, in whatever tenant. */
  lemma {:induction false} ArchivedIsNotStarted(s: Store, t: TenantId, c: CaseId, a: Actor)
    ensures
      var s' := Apply(s, ArchiveCase(c));
      StartRefusal(s', t, c, a) == Some(CaseNotFoundOrArchived) && Apply(s', StartExecution(t, c, a)) == s'
  {
  }

  /** A registered address keeps its user, any other gets this one; from then on provisioning it grants a role and
      invites nobody. */
  lemma {:induction false} RegisteredIsProvisioned(s: Store, t: TenantId, email: Email, u: UserId,
                                                   q: DecisionRequest, now: int)
    requires q.effect.ProvisionVerifier? && q.tenantId == t && q.effect.email == email
    ensures
      var s' := Apply(s, RegisterUser(t, email, u));
      var r := Apply(s', Decide(q, now));
      && (t, email) in s'.users
      && s'.users[(t, email)] == (if (t, email) in s.users then s.users[(t, email)] else u)
      && r.invites == s.invites
      && (RequestAccepted(s', q) && EffectAccepted(s', q) ==>
            r.userRoles == s.userRoles + {(s'.users[(t, email)], t, q.effect.roleKey)})
  {
    DecisionErrors(Apply(s, RegisterUser(t, email, u)), q);
    hide RequestAccepted, DecisionRefusal, Decided;
  }
}
