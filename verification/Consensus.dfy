/** The consensus evaluator and its explanation, against each other and against the quorum test of voting. */
module Consensus {
  import opened Common
  import opened GovernanceStore

  datatype Phase = NoVotes | InReview(approvals: nat, rejections: nat) | ApprovedPhase | RejectedPhase | Disputed

  function CountOf(votes: seq<VoteStatus>, status: VoteStatus): nat {
    |Filter(votes, (v: VoteStatus) => v == status)|
  }

  function Evaluate(requiredVerifiers: int, votes: seq<VoteStatus>): Phase {
    var approvals, rejections := CountOf(votes, Approved), CountOf(votes, Refused);
    if approvals >= requiredVerifiers then ApprovedPhase
    else if rejections >= requiredVerifiers then RejectedPhase
    else if approvals > 0 && rejections > 0 then Disputed
    else if |votes| > 0 then InReview(approvals, rejections)
    else NoVotes
  }

  /** The adapter for API projections: anything undecided is pending. */
  function DeriveStatus(p: Phase): VoteStatus {
    match p
    case ApprovedPhase => Approved
    case RejectedPhase => Refused
    case _ => Pending
  }

  lemma {:induction false} CountIsMultiplicity(votes: seq<VoteStatus>, status: VoteStatus)
    ensures CountOf(votes, status) == multiset(votes)[status]
  {
    if votes != [] {
      var init, last := votes[..|votes| - 1], votes[|votes| - 1];
      assert votes == init + [last];
      CountIsMultiplicity(init, status);
      FilterSnoc(init, last, (v: VoteStatus) => v == status);
    }
  }

  lemma {:induction false} CountConcat(votes: seq<VoteStatus>, more: seq<VoteStatus>, status: VoteStatus)
    ensures CountOf(votes + more, status) == CountOf(votes, status) + CountOf(more, status)
  {
    FilterConcat(votes, more, (v: VoteStatus) => v == status);
  }

  /** The order of votes is irrelevant. */
  lemma {:induction false} OrderIrrelevant(requiredVerifiers: int, a: seq<VoteStatus>, b: seq<VoteStatus>)
    requires multiset(a) == multiset(b)
    ensures Evaluate(requiredVerifiers, a) == Evaluate(requiredVerifiers, b)
  {
    CountIsMultiplicity(a, Approved);
    CountIsMultiplicity(b, Approved);
    CountIsMultiplicity(a, Refused);
    CountIsMultiplicity(b, Refused);
    assert |multiset(a)| == |a| && |multiset(b)| == |b|;
  }

  /** Once approved, further votes never undo it. */
  lemma {:induction false} ApprovalIsAbsorbing(requiredVerifiers: int, votes: seq<VoteStatus>, more: seq<VoteStatus>)
    requires Evaluate(requiredVerifiers, votes).ApprovedPhase?
    ensures Evaluate(requiredVerifiers, votes + more).ApprovedPhase?
  {
    CountConcat(votes, more, Approved);
  }

  lemma {:induction false} CountedIfCast(votes: seq<VoteStatus>, status: VoteStatus)
    ensures CountOf(votes, status) > 0 <==> status in votes
  {
    CountIsMultiplicity(votes, status);
  }

  /** A round is pending exactly while nobody has voted, disputed only with a vote on each side, and a
      dispute is settled by a quorum or not at all. */
  lemma {:induction false} DisputesNeedAQuorum(requiredVerifiers: int, votes: seq<VoteStatus>, more: seq<VoteStatus>)
    requires requiredVerifiers > 0
    ensures Evaluate(requiredVerifiers, votes) == NoVotes <==> votes == []
    ensures Evaluate(requiredVerifiers, votes).Disputed? ==> Approved in votes && Refused in votes
    ensures Evaluate(requiredVerifiers, votes).InReview? ==> !(Approved in votes && Refused in votes)
    ensures
      var phase := Evaluate(requiredVerifiers, votes);
      phase.InReview? ==>
        phase.approvals == multiset(votes)[Approved] && phase.rejections == multiset(votes)[Refused]
    ensures Evaluate(requiredVerifiers, votes).Disputed? ==>
              var later := Evaluate(requiredVerifiers, votes + more);
              later.Disputed? || later.ApprovedPhase? || later.RejectedPhase?
  {
    CountedIfCast(votes, Approved);
    CountedIfCast(votes, Refused);
    CountIsMultiplicity(votes, Approved);
    CountIsMultiplicity(votes, Refused);
    CountConcat(votes, more, Approved);
    CountConcat(votes, more, Refused);
  }

  function Statuses(votes: seq<Vote>): (r: seq<VoteStatus>)
    ensures |r| == |votes|
  {
    seq(|votes|, i requires 0 <= i < |votes| => votes[i].status)
  }

  lemma {:induction false} ApprovalsAreCounted(votes: seq<Vote>)
    ensures Approvals(votes) == CountOf(Statuses(votes), Approved)
  {
    if votes != [] {
      var init, last := votes[..|votes| - 1], votes[|votes| - 1];
      ApprovalsAreCounted(init);
      assert Statuses(votes) == Statuses(init) + [last.status];
      FilterSnoc(Statuses(init), last.status, (v: VoteStatus) => v == Approved);
    }
  }

  /** The evaluator says APPROVED exactly when voting finalizes the round, and so does the status shown for
      it; REJECTED is shown exactly for a rejection quorum without an approval quorum, PENDING otherwise. */
  lemma {:induction false} AgreesWithQuorum(r: Round, v: Vote)
    ensures ReachesQuorum(r, v) <==> Evaluate(r.requiredVerifiers, Statuses(r.votes + [v])).ApprovedPhase?
    ensures
      var votes := Statuses(r.votes + [v]);
      DeriveStatus(Evaluate(r.requiredVerifiers, votes))
      == if ReachesQuorum(r, v) then Approved
         else if multiset(votes)[Refused] >= r.requiredVerifiers then Refused else Pending
  {
    CountIsMultiplicity(Statuses(r.votes + [v]), Refused);
    ApprovalsAreCounted(r.votes + [v]);
  }

  // ---- The explanation ----

  datatype Outlook = WouldBeApproved | WouldBeRejected | WouldRemainUnresolved

  datatype Explanation = Explanation(
    phase: Phase,
    remainingApprovals: int,
    remainingRejections: int,
    ifNextApproved: Outlook,
    ifNextRejected: Outlook
  )

  function Max0(n: int): int { if n < 0 then 0 else n }

  function Explain(requiredVerifiers: int, votes: seq<VoteStatus>): Explanation {
    var approvals, rejections := CountOf(votes, Approved), CountOf(votes, Refused);
    Explanation(
      Evaluate(requiredVerifiers, votes),
      Max0(requiredVerifiers - approvals),
      Max0(requiredVerifiers - rejections),
      if approvals + 1 >= requiredVerifiers then WouldBeApproved else WouldRemainUnresolved,
      if rejections + 1 >= requiredVerifiers then WouldBeRejected else WouldRemainUnresolved)
  }

  function Repeat(n: nat, s: VoteStatus): (r: seq<VoteStatus>)
    ensures |r| == n
  {
    seq(n, _ => s)
  }

  lemma {:induction false} CountRepeat(n: nat, s: VoteStatus, t: VoteStatus)
    ensures CountOf(Repeat(n, s), t) == if s == t then n else 0
  {
    if n > 0 {
      assert Repeat(n, s) == Repeat(n - 1, s) + [s];
      CountRepeat(n - 1, s, t);
      FilterSnoc(Repeat(n - 1, s), s, (v: VoteStatus) => v == t);
    }
  }

  /** The remaining approvals are the least number of extra approvals that gives APPROVED; while below the
      approval quorum, the remaining rejections are the least number of extra rejections that gives REJECTED. */
  lemma {:induction false} RemainingIsLeast(requiredVerifiers: int, votes: seq<VoteStatus>, n: nat)
    ensures Evaluate(requiredVerifiers, votes + Repeat(n, Approved)).ApprovedPhase? <==>
            n >= Explain(requiredVerifiers, votes).remainingApprovals
    ensures !Evaluate(requiredVerifiers, votes).ApprovedPhase? ==>
              (Evaluate(requiredVerifiers, votes + Repeat(n, Refused)).RejectedPhase? <==>
               n >= Explain(requiredVerifiers, votes).remainingRejections)
  {
    CountConcat(votes, Repeat(n, Approved), Approved);
    CountConcat(votes, Repeat(n, Refused), Approved);
    CountConcat(votes, Repeat(n, Refused), Refused);
    CountRepeat(n, Approved, Approved);
    CountRepeat(n, Refused, Approved);
    CountRepeat(n, Refused, Refused);
  }

  function Outcome(p: Phase): Outlook {
    match p
    case ApprovedPhase => WouldBeApproved
    case RejectedPhase => WouldBeRejected
    case _ => WouldRemainUnresolved
  }

  /** Each counterfactual is what the evaluator would answer, except in exactly these states: the
      approval outlook calls an already rejected round unresolved when one more approval is not enough,
      and the rejection outlook ignores an approval quorum already reached. */
  lemma {:induction false} CounterfactualsAreExact(requiredVerifiers: int, votes: seq<VoteStatus>)
    ensures
      var x := Explain(requiredVerifiers, votes);
      var approvals, rejections := CountOf(votes, Approved), CountOf(votes, Refused);
      && (x.ifNextApproved == Outcome(Evaluate(requiredVerifiers, votes + [Approved])) <==>
          (rejections < requiredVerifiers || approvals + 1 >= requiredVerifiers))
      && (x.ifNextRejected == Outcome(Evaluate(requiredVerifiers, votes + [Refused])) <==>
          approvals < requiredVerifiers)
      && (x.ifNextApproved.WouldBeApproved? <==> Evaluate(requiredVerifiers, votes + [Approved]).ApprovedPhase?)
  {
    FilterSnoc(votes, Approved, (v: VoteStatus) => v == Approved);
    FilterSnoc(votes, Approved, (v: VoteStatus) => v == Refused);
    FilterSnoc(votes, Refused, (v: VoteStatus) => v == Approved);
    FilterSnoc(votes, Refused, (v: VoteStatus) => v == Refused);
  }

  /** Both outlooks do go wrong: at a quorum of two, after two refusals the next approval is said to leave the
      round unresolved although it stays rejected, and after two approvals the next refusal although it stays
      approved. */
  lemma {:induction false} CounterfactualsGoWrong()
    ensures
      var votes := [Refused, Refused];
      Explain(2, votes).ifNextApproved == WouldRemainUnresolved && Evaluate(2, votes + [Approved]) == RejectedPhase
    ensures
      var votes := [Approved, Approved];
      Explain(2, votes).ifNextRejected == WouldRemainUnresolved && Evaluate(2, votes + [Refused]) == ApprovedPhase
  {
    CountRepeat(2, Refused, Refused);
    CountRepeat(2, Refused, Approved);
    CountRepeat(2, Approved, Approved);
    CountRepeat(2, Approved, Refused);
    assert Repeat(2, Refused) == [Refused, Refused] && Repeat(2, Approved) == [Approved, Approved];
    CountConcat([Refused, Refused], [Approved], Refused);
    CountConcat([Refused, Refused], [Approved], Approved);
    CountConcat([Approved, Approved], [Refused], Approved);
    CountConcat([Approved, Approved], [Refused], Refused);
    CountRepeat(1, Approved, Approved);
    CountRepeat(1, Approved, Refused);
    assert Repeat(1, Approved) == [Approved];
  }
}
