/** The services as transactions over the store: statements run one by one, and a throw restores the
    snapshot taken when the transaction began. */
module GovernanceDb {
  import opened Common
  import opened CaseLifecycle
  import opened ExecutionProgress
  import opened Ledger
  import opened GovernanceStore

  datatype Authorization = AuthorizedResult(caseId: CaseId) | Denied(status: DisbursementStatus)

  class Database {
    var db: Store

    constructor ()
      ensures db == EMPTY_STORE
    {
      db := EMPTY_STORE;
    }

    // ---- Ledger and lifecycle ----

    method CommitLedgerEvent(t: TenantId, c: CaseId, e: EventType, a: Actor) returns (r: Option<Error>)
      modifies this
      ensures r == if MayCommit(a) then None else Some(InvalidActor)
      ensures db == if MayCommit(a) then Log(old(db), t, c, e) else old(db)
    {
      if a.proof == "" || (a.kind == Human && a.userId.None?) { return Some(InvalidActor); }
      db := db.(ledger := db.ledger + [Fact(t, c, e)]);
      r := None;
    }

    /** One whole transition transaction without interleaving. */
    method TransitionCaseLifecycleWithLedger(t: TenantId, c: CaseId, target: Lifecycle, a: Actor)
      returns (r: Result<Lifecycle, Error>)
      modifies this
      ensures TransitionRefusal(old(db), t, c, target, a).Some? ==>
                r == Failure(TransitionRefusal(old(db), t, c, target, a).value) && db == old(db)
      ensures TransitionRefusal(old(db), t, c, target, a).None? ==>
                r == Success(target) && c in old(db).cases && db == Transitioned(old(db), t, c, target)
    {
      if !MayCommit(a) || (a.kind == System && a.userId.Some?) { return Failure(InvalidActor); }
      if c !in db.cases || db.cases[c].tenantId != t { return Failure(CaseNotFound); }
      var previousLifecycle := db.cases[c].lifecycle;
      var allowed := TransitionCase(previousLifecycle, target);
      if allowed.Failure? { return Failure(IllegalTransition); }
      var next := allowed.value;
      if next == Executing {
        if c !in db.executions || db.executions[c].tenantId != t { return Failure(ExecutingRequiresExecution); }
      }
      var ledgerEvent := EventFor(next);
      // the row still holds previousLifecycle: nothing else runs inside this transaction
      db := db.(cases := db.cases[c := db.cases[c].(lifecycle := next)]);
      var thrown := CommitLedgerEvent(t, c, ledgerEvent, a);
      r := Success(next);
    }

    // ---- Decisions ----

    /** Runs inside the caller's transaction. When inserting or the effect throws, the supersession and
        then the new decision have already been written: only the caller's rollback takes them back. */
    method ApplyDecision(q: DecisionRequest, now: int) returns (r: Option<Error>)
      modifies this
      ensures r == DecisionRefusal(old(db), q)
      ensures r.None? ==> q.caseId in old(db).cases && db == DecisionApplied(old(db), q, now)
      ensures r.Some? ==>
                db == match r.value
                      case HumanDecisionRequiresUser => old(db)
                      case SupersessionMismatch => old(db)
                      case DecisionWithoutCase => old(db).(decisions := SupersededBy(old(db).decisions, q, now))
                      case _ => old(db).(decisions := Decided(old(db).decisions, q, now))
    {
      if q.actorKind == Human && q.actorUserId.None? { return Some(HumanDecisionRequiresUser); }
      if q.supersedes.Some? {
        var id := q.supersedes.value;
        if id >= |db.decisions| || !ActiveFor(db.decisions[id], q) { return Some(SupersessionMismatch); }
      }
      SupersedeActive(q, now);
      if q.caseId !in db.cases { return Some(DecisionWithoutCase); }
      var decision := Decision(q.tenantId, q.caseId, q.decisionType, q.actorKind,
                               if q.actorKind == Human then q.actorUserId else None, q.supersedes, None);
      db := db.(decisions := db.decisions + [decision]);
      r := ExecuteEffect(q);
    }

    method ExecuteEffect(q: DecisionRequest) returns (r: Option<Error>)
      requires q.caseId in db.cases
      modifies this
      ensures r == EffectRefusal(old(db), q)
      ensures db == if r.Some? then old(db) else EffectApplied(old(db), q)
    {
      match q.effect
      case ExecutionVerified =>
        var effect := TransitionCaseLifecycleWithLedger(q.tenantId, q.caseId, Verified, EffectActor(q));
        r := if effect.Failure? then Some(effect.error) else None;
      case ProvisionVerifier(email, roleKey) =>
        if (q.tenantId, roleKey) !in db.roles { return Some(RoleNotFound); }
        if (q.tenantId, email) in db.users {
          var userRole := (db.users[(q.tenantId, email)], q.tenantId, roleKey);
          if userRole !in db.userRoles { db := db.(userRoles := db.userRoles + {userRole}); }
          assert db.userRoles == old(db).userRoles + {userRole};
          return None;
        }
        db := db.(invites := db.invites - {(q.tenantId, email)});
        db := db.(invites := db.invites[(q.tenantId, email) := roleKey]);
        assert db.invites == old(db).invites[(q.tenantId, email) := roleKey];
        r := None;
      case OtherEffect => r := Some(EffectNotImplemented);
    }

    /** updateMany over the active decisions of one (tenant, case, type). */
    method SupersedeActive(q: DecisionRequest, now: int)
      modifies this
      ensures db == old(db).(decisions := SupersededBy(old(db).decisions, q, now))
    {
      var ds := db.decisions;
      for i := 0 to |ds|
        invariant db == old(db) && |ds| == |old(db).decisions|
        invariant forall k :: i <= k < |ds| ==> ds[k] == old(db).decisions[k]
        invariant forall k :: 0 <= k < i ==>
                    ds[k] == if ActiveFor(old(db).decisions[k], q)
                             then old(db).decisions[k].(supersededAt := Some(now)) else old(db).decisions[k]
      {
        if ActiveFor(ds[i], q) { ds := ds[i := ds[i].(supersededAt := Some(now))]; }
      }
      db := db.(decisions := ds);
    }

    // ---- Verification ----

    method CountApproved(id: nat) returns (n: nat)
      requires id < |db.rounds|
      ensures n == Approvals(db.rounds[id].votes)
    {
      n := 0;
      var votes := db.rounds[id].votes;
      for i := 0 to |votes|
        invariant n == Approvals(votes[..i])
      {
        assert votes[..i + 1][..i] == votes[..i];
        if votes[i].status == Approved { n := n + 1; }
      }
      assert votes[..|votes|] == votes;
    }

    /** All or nothing: whatever throws, and however late, the store is the one the transaction began with. */
    method RecordVerification(id: nat, v: Vote, now: int) returns (r: Result<bool, Error>)
      modifies this
      ensures VoteRefusal(old(db), id, v).Some? ==>
                r == Failure(VoteRefusal(old(db), id, v).value) && db == old(db)
      ensures VoteRefusal(old(db), id, v).None? ==>
                db == Voted(old(db), id, v, now) && r == Success(ReachesQuorum(old(db).rounds[id], v))
    {
      var snapshot := db;
      if id >= |db.rounds| { return Failure(RoundNotFound); }
      var record := db.rounds[id];
      if record.consensusReached { return Failure(AlreadyFinalized); }
      if !CompletedIn(db, record.tenantId, record.caseId) { return Failure(RequiresCompletedExecution); }
      if !MayVerify(db, record, v.verifier) { return Failure(NotAuthorizedToVerify); }
      if HasVoted(record.votes, v.verifier) { return Failure(AlreadyVoted); }
      db := db.(rounds := db.rounds[id := record.(votes := record.votes + [v])]);
      var voter := Actor(Human, Some(v.verifier), "HUMAN:VERIFICATION_VOTE");
      var logged := CommitLedgerEvent(record.tenantId, record.caseId, VerificationSubmitted, voter);
      var approvedCount := CountApproved(id);
      if approvedCount < record.requiredVerifiers { return Success(false); }
      db := db.(rounds := db.rounds[id := db.rounds[id].(consensusReached := true, verifiedAt := now)]);
      var decided := ApplyDecision(ConsensusRequest(record, v.verifier), now);
      if decided.Some? {
        db := snapshot;
        return Failure(decided.value);
      }
      r := Success(true);
    }

    method FindOpen(t: TenantId, c: CaseId) returns (r: Option<nat>)
      ensures r.Some? <==> HasOpen(db, t, c)
      ensures r.Some? ==> r.value < |db.rounds| && IsOpen(db.rounds[r.value], t, c)
    {
      for i := 0 to |db.rounds|
        invariant forall k :: 0 <= k < i ==> !IsOpen(db.rounds[k], t, c)
      {
        if IsOpen(db.rounds[i], t, c) { return Some(i); }
      }
      r := None;
    }

    /** Runs inside the caller's transaction; a ledger refusal leaves the round behind for the caller to roll back. */
    method InitializeVerification(t: TenantId, c: CaseId, a: Actor) returns (r: Result<nat, Error>)
      modifies this
      ensures r.Failure? <==> InitializeRefusal(old(db), t, c, a).Some?
      ensures r.Failure? ==> r.error == InitializeRefusal(old(db), t, c, a).value
      ensures r.Failure? ==>
                db == if r.error == InvalidActor
                      then old(db).(rounds := old(db).rounds + [NewRound(t, c, 2, {"VERIFIER"})]) else old(db)
      ensures r.Success? ==> db == Initialized(old(db), t, c)
                             && r.value < |db.rounds| && IsOpen(db.rounds[r.value], t, c)
    {
      var existing := FindOpen(t, c);
      if existing.Some? { return Success(existing.value); }
      if !CompletedIn(db, t, c) { return Failure(RequiresCompletedExecution); }
      if (t, "VERIFIER") !in db.roles { return Failure(VerifierRoleMissing); }
      db := db.(rounds := db.rounds + [NewRound(t, c, 2, {})]);
      var id := |db.rounds| - 1;
      db := db.(rounds := db.rounds[id := db.rounds[id].(requiredRoles := {"VERIFIER"})]);
      assert db.rounds == old(db).rounds + [NewRound(t, c, 2, {"VERIFIER"})];
      var thrown := CommitLedgerEvent(t, c, VerificationStarted, a);
      if thrown.Some? { return Failure(thrown.value); }
      r := Success(id);
    }

    method EnsureVerificationRound(t: TenantId, c: CaseId, required: nat, roles: set<RoleKey>)
      returns (r: Result<nat, Error>)
      requires 1 <= required <= 50 && roles != {}
      modifies this
      ensures RequestRefusal(old(db), t, c).Some? ==>
                r == Failure(RequestRefusal(old(db), t, c).value) && db == old(db)
      ensures RequestRefusal(old(db), t, c).None? ==>
                db == Requested(old(db), t, c, required, roles)
                && r.Success? && r.value < |db.rounds| && IsOpen(db.rounds[r.value], t, c)
    {
      var open := FindOpen(t, c);
      if open.Some? { return Success(open.value); }
      if c !in db.cases { return Failure(CaseNotFound); }
      db := db.(rounds := db.rounds + [NewRound(t, c, required, {})]);
      var id := |db.rounds| - 1;
      db := db.(rounds := db.rounds[id := db.rounds[id].(requiredRoles := roles)]);
      assert db.rounds == old(db).rounds + [NewRound(t, c, required, roles)];
      var logged := CommitLedgerEvent(t, c, VerificationRequested, Actor(System, None, "SYSTEM:VERIFICATION_REQUEST"));
      r := Success(id);
    }

    // ---- Execution ----

    method StartExecution(t: TenantId, c: CaseId, a: Actor) returns (r: Option<Error>)
      modifies this
      ensures r == StartRefusal(old(db), t, c, a)
      ensures db == if r.Some? then old(db) else ExecutionBegun(old(db), t, c)
    {
      var snapshot := db;
      if !CaseIn(db, t, c) || db.cases[c].archived { return Some(CaseNotFoundOrArchived); }
      if c in db.executions { return None; }
      db := db.(executions := db.executions[c := Execution(t, InProgress, [])]);
      db := db.(executions := db.executions[c := db.executions[c].(milestones := SEEDED)]);
      var thrown := CommitLedgerEvent(t, c, ExecutionStarted, a);
      if thrown.Some? { db := snapshot; }
      r := thrown;
    }

    method CompleteExecution(t: TenantId, c: CaseId, a: Actor) returns (r: Option<Error>)
      modifies this
      ensures r == CompleteRefusal(old(db), t, c, a)
      ensures r.Some? ==> db == old(db)
      ensures r.None? ==> c in old(db).executions && db == ExecutionDone(old(db), t, c)
    {
      var snapshot := db;
      if !ExecutionIn(db, t, c) { return Some(ExecutionNotFound); }
      if db.executions[c].status == Finished { return None; }
      if db.executions[c].status == Aborted { return Some(AbortedExecution); }
      if c !in db.evidence { return Some(EvidenceMissing); }
      db := db.(executions := db.executions[c := db.executions[c].(status := Finished)]);
      var thrown := CommitLedgerEvent(t, c, ExecutionCompleted, a);
      if thrown.Some? { db := snapshot; return thrown; }
      assert db == MarkFinished(old(db), t, c);
      var round := InitializeVerification(t, c, a);
      if round.Failure? { db := snapshot; return Some(round.error); }
      r := None;
    }

    method CompleteMilestone(t: TenantId, c: CaseId, i: nat, user: UserId) returns (r: Option<Error>)
      modifies this
      ensures r == MilestoneRefusal(old(db), t, c, i)
      ensures db == if r.Some? then old(db) else MilestoneDone(old(db), t, c, i)
    {
      if c !in db.executions || i >= |db.executions[c].milestones| { return Some(MilestoneNotFound); }
      var execution := db.executions[c];
      if execution.tenantId != t { return Some(TenantMismatch); }
      if execution.milestones[i].completed {
        assert db.executions[c := execution] == db.executions;
        return None;
      }
      if execution.status != InProgress { return Some(ExecutionNotActive); }
      var actor := Actor(Human, Some(user), "HUMAN:MILESTONE");
      db := db.(executions := db.executions[c := Mark(execution, i)]);
      var logged := CommitLedgerEvent(t, c, ExecutionProgressRecorded, actor);
      var totalWeight, completedWeight := SumWeights(db.executions[c].milestones);
      if totalWeight > 0 && completedWeight == totalWeight {
        db := db.(executions := db.executions[c := db.executions[c].(status := Finished)]);
        logged := CommitLedgerEvent(t, c, ExecutionCompleted, actor);
        assert db.ledger == old(db).ledger + [Fact(t, c, ExecutionProgressRecorded), Fact(t, c, ExecutionCompleted)];
      } else {
        assert db.ledger == old(db).ledger + [Fact(t, c, ExecutionProgressRecorded)];
      }
      r := None;
    }

    method RecordDelivery(t: TenantId, c: CaseId, user: Option<UserId>) returns (r: Option<Error>)
      modifies this
      ensures r == DeliveryRefusal(old(db), t, c)
      ensures db == if r.Some? then old(db) else Delivered(old(db), t, c)
    {
      if !CaseIn(db, t, c) { return Some(CaseNotFound); }
      if c !in db.executions { db := db.(executions := db.executions[c := Execution(t, Created, [])]); }
      var actor := if user.Some? then Actor(Human, user, "HUMAN:DELIVERY") else Actor(System, None, "SYSTEM:DELIVERY");
      r := CommitLedgerEvent(t, c, ExecutionProgressRecorded, actor);
    }

    // ---- Disbursement ----

    method LatestConsensus(c: CaseId) returns (r: Option<nat>)
      ensures r.Some? <==> HasConsensus(db, c)
      ensures r.Some? ==> IsLatestConsensus(db, c, r.value)
    {
      r := None;
      for i := 0 to |db.rounds|
        invariant r.None? ==> forall k :: 0 <= k < i ==> !IsConsensusOf(db.rounds[k], c)
        invariant r.Some? ==> r.value < i && IsConsensusOf(db.rounds[r.value], c)
        invariant r.Some? ==> forall k :: 0 <= k < i && IsConsensusOf(db.rounds[k], c) ==>
                    db.rounds[k].verifiedAt <= db.rounds[r.value].verifiedAt
      {
        if IsConsensusOf(db.rounds[i], c) && (r.None? || db.rounds[r.value].verifiedAt < db.rounds[i].verifiedAt) {
          r := Some(i);
        }
      }
    }

    /** A repeated call answers from the row and changes nothing. */
    method AuthorizeDisbursement(t: TenantId, c: CaseId, amount: Option<real>, a: Actor)
      returns (r: Result<Authorization, Error>)
      modifies this
      ensures c in old(db).disbursements ==>
                db == old(db)
                && r == Success(if old(db).disbursements[c].status == Authorized then AuthorizedResult(c)
                                else Denied(old(db).disbursements[c].status))
      ensures c !in old(db).disbursements && AuthorizeRefusal(old(db), t, c, amount, a).Some? ==>
                db == old(db) && r == Failure(AuthorizeRefusal(old(db), t, c, amount, a).value)
      ensures c !in old(db).disbursements && AuthorizeRefusal(old(db), t, c, amount, a).None? ==>
                r == Success(AuthorizedResult(c)) && c in db.disbursements
                && IsLatestConsensus(old(db), c, db.disbursements[c].roundId)
                && db == AuthorizedStore(old(db), t, c, amount.value, db.disbursements[c].roundId)
    {
      var snapshot := db;
      if c in db.disbursements {
        if db.disbursements[c].status == Authorized { return Success(AuthorizedResult(c)); }
        return Success(Denied(db.disbursements[c].status));
      }
      if !CaseIn(db, t, c) { return Failure(CaseNotFound); }
      var round := LatestConsensus(c);
      if db.cases[c].lifecycle != Verified { return Failure(CaseNotVerified); }
      if c !in db.executions { return Failure(ExecutionMissing); }
      if db.executions[c].status != Finished { return Failure(ExecutionNotCompleted); }
      if round.None? { return Failure(NoConsensus); }
      if amount.None? || amount.value <= 0.0 { return Failure(InvalidAmount); }
      var cents := ToCents(amount.value);
      db := db.(disbursements := db.disbursements[c := Disbursement(t, Authorized, cents, round.value)]);
      var thrown := CommitLedgerEvent(t, c, DisbursementAuthorized, a);
      if thrown.Some? { db := snapshot; return Failure(thrown.value); }
      r := Success(AuthorizedResult(c));
    }

    method ExecuteDisbursement(t: TenantId, c: CaseId, a: Actor, success: bool) returns (r: Option<Error>)
      modifies this
      ensures r == ExecuteRefusal(old(db), c, a)
      ensures r.Some? ==> db == old(db)
      ensures r.None? ==> c in old(db).disbursements && db == Settled(old(db), t, c, success)
    {
      var snapshot := db;
      if c !in db.disbursements { return Some(DisbursementMissing); }
      if db.disbursements[c].status != Authorized { return Some(DisbursementNotAuthorized); }
      var thrown;
      db := db.(disbursements := db.disbursements[c := db.disbursements[c].(status := ExecutingPayment)]);
      if success {
        db := db.(disbursements := db.disbursements[c := db.disbursements[c].(status := Paid)]);
        thrown := CommitLedgerEvent(t, c, DisbursementCompleted, a);
      } else {
        db := db.(disbursements := db.disbursements[c := db.disbursements[c].(status := Failed)]);
        thrown := CommitLedgerEvent(t, c, DisbursementFailed, a);
      }
      if thrown.Some? { db := snapshot; return thrown; }
      assert db.disbursements == Settled(old(db), t, c, success).disbursements;
      r := None;
    }
  }
}
