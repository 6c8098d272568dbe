/** The lifecycle enum, its closed edge table and the state-to-event map. */
module CaseLifecycle {
  import opened Common

  datatype Lifecycle =
    | Intake | Routed | Accepted | Executing | Verified | Flagged
    | HumanReview | Completed | Rejected | Cancelled | Archived

  datatype EventType =
    | CaseCreated | CaseUpdated | LifecycleRepaired | CaseAccepted | CaseFlagged
    | CaseEscalated | CaseRejected | CaseArchived | CaseCancelled
    | RoutedEvent | RoutingSuperseded
    | VerificationStarted | VerificationRequested | VerificationSubmitted | VerifiedEvent
    | VerificationRejected | VerificationDisputed | VerificationTimedOut | VerifierProvisioned
    | AppealOpened | AppealResolved
    | GrantCreated | GrantPolicyApplied | BudgetAllocated | TrancheReleased
    | BudgetSuperseded | TrancheReversed
    | ExecutionStarted | ExecutionProgressRecorded | ExecutionCompleted | ExecutionAborted
    | DisbursementAuthorized | DisbursementCompleted | DisbursementFailed

  datatype LifecycleError = IllegalLifecycleTransition(from: Lifecycle, to: Lifecycle)

  /** Closed transition law: an edge that is not listed does not exist. */
  function Transitions(l: Lifecycle): seq<Lifecycle> {
    match l
    case Intake => [Routed]
    case Routed => [Accepted]
    case Accepted => [Executing]
    case Executing => [Verified, Flagged]
    case Verified => [Completed]
    case Flagged => [HumanReview]
    case HumanReview => [Rejected, Verified]
    case Completed => []
    case Rejected => []
    case Archived => []
    case Cancelled => []
  }

  predicate Edge(from: Lifecycle, to: Lifecycle) {
    to in Transitions(from)
  }

  function EventFor(l: Lifecycle): EventType {
    match l
    case Intake => CaseCreated
    case Routed => RoutedEvent
    case Accepted => CaseAccepted
    case Executing => ExecutionStarted
    case Verified => VerifiedEvent
    case Flagged => CaseFlagged
    case HumanReview => CaseEscalated
    case Completed => ExecutionCompleted
    case Rejected => CaseRejected
    case Archived => CaseArchived
    case Cancelled => CaseCancelled
  }

  /** The guard: the target, or a throw when the edge table does not list it. */
  function TransitionCase(current: Lifecycle, target: Lifecycle): Result<Lifecycle, LifecycleError> {
    if target in Transitions(current) then Success(target)
    else Failure(IllegalLifecycleTransition(current, target))
  }

  /** Every lawful move, and the event that announces it. */
  const LAWFUL: set<(Lifecycle, Lifecycle, EventType)> := {
    (Intake, Routed, RoutedEvent), (Routed, Accepted, CaseAccepted), (Accepted, Executing, ExecutionStarted),
    (Executing, Verified, VerifiedEvent), (Executing, Flagged, CaseFlagged), (Verified, Completed, ExecutionCompleted),
    (Flagged, HumanReview, CaseEscalated), (HumanReview, Rejected, CaseRejected), (HumanReview, Verified, VerifiedEvent)
  }

  predicate LawfulMove(from: Lifecycle, to: Lifecycle) {
    exists e :: (from, to, e) in LAWFUL
  }

  /** The guard lets exactly the lawful moves through, and the event map names their events. */
  lemma {:induction false} GuardIsLaw(from: Lifecycle, to: Lifecycle)
    ensures TransitionCase(from, to) == Success(to) <==> LawfulMove(from, to)
    ensures !LawfulMove(from, to) ==> TransitionCase(from, to) == Failure(IllegalLifecycleTransition(from, to))
    ensures Edge(from, to) <==> LawfulMove(from, to)
    ensures LawfulMove(from, to) ==> (from, to, EventFor(to)) in LAWFUL
  {
    EdgesAreLawful(from, to);
    hide Edge;
  }

  lemma {:induction false} EdgesAreLawful(from: Lifecycle, to: Lifecycle)
    ensures Edge(from, to) <==> LawfulMove(from, to)
    ensures Edge(from, to) ==> (from, to, EventFor(to)) in LAWFUL
  {
    if LawfulMove(from, to) { var e :| (from, to, e) in LAWFUL; }
    if Edge(from, to) { assert (from, to, EventFor(to)) in LAWFUL; }
  }

  /** One event for each lawful move. */
  lemma {:induction false} OneEventPerMove(from: Lifecycle, to: Lifecycle, e: EventType)
    requires (from, to, e) in LAWFUL
    ensures e == EventFor(to)
  {
  }

  /** A height that every edge strictly climbs; the table is therefore acyclic. */
  function Height(l: Lifecycle): nat {
    match l
    case Intake => 0
    case Routed => 1
    case Accepted => 2
    case Executing => 3
    case Flagged => 4
    case HumanReview => 5
    case Verified => 6
    case Rejected => 6
    case Completed => 7
    case Archived => 0
    case Cancelled => 0
  }

  /** One committed transition, as seen by its ledger payload. */
  datatype Hop = Hop(from: Lifecycle, to: Lifecycle)

  /** The state a case created in INTAKE is in after its first `k` hops. */
  function StateAfter(hops: seq<Hop>, k: nat): Lifecycle
    requires k <= |hops|
  {
    if k == 0 then Intake else hops[k - 1].to
  }

  /** `hops` is one path of declared edges from INTAKE. */
  predicate IsPath(hops: seq<Hop>) {
    forall i {:trigger hops[i]} :: 0 <= i < |hops| ==>
      hops[i].from == StateAfter(hops, i) && Edge(hops[i].from, hops[i].to)
  }

  lemma {:induction false} EdgeClimbs(from: Lifecycle, to: Lifecycle)
    requires Edge(from, to)
    ensures Height(from) < Height(to) <= 7
  {
  }

  lemma {:induction false} PathClimbs(hops: seq<Hop>, i: nat, j: nat)
    requires IsPath(hops) && i <= j <= |hops|
    ensures Height(StateAfter(hops, i)) + (j - i) <= Height(StateAfter(hops, j))
    decreases j - i
  {
    hide Edge, Height;
    if i < j {
      PathClimbs(hops, i, j - 1);
      assert hops[j - 1].from == StateAfter(hops, j - 1);
      EdgeClimbs(hops[j - 1].from, hops[j - 1].to);
    }
  }

  /** No state is ever entered twice, so a path has at most seven hops. */
  lemma {:induction false} PathsAreShortAndSimple(hops: seq<Hop>)
    requires IsPath(hops)
    ensures |hops| <= 7
    ensures forall i, j :: 0 <= i < j <= |hops| ==> StateAfter(hops, i) != StateAfter(hops, j)
    ensures forall i, j :: 0 <= i < j < |hops| ==> hops[i].from != hops[j].from
    ensures StateAfter(hops, |hops|) !in {Archived, Cancelled}
  {
    PathClimbs(hops, 0, |hops|);
    assert |hops| <= 7 by { assert Height(StateAfter(hops, |hops|)) <= 7; }
    forall i, j | 0 <= i < j <= |hops|
      ensures StateAfter(hops, i) != StateAfter(hops, j)
    {
      PathClimbs(hops, i, j);
    }
    forall i, j | 0 <= i < j < |hops|
      ensures hops[i].from != hops[j].from
    {
      assert StateAfter(hops, i) != StateAfter(hops, j);
    }
    if |hops| > 0 {
      assert Edge(hops[|hops| - 1].from, hops[|hops| - 1].to);
    }
  }

  /** The bound is met: one path goes through seven hops. */
  lemma {:induction false} LongestPath() returns (hops: seq<Hop>)
    ensures IsPath(hops) && |hops| == 7 && StateAfter(hops, 7) == Completed
  {
    hops := [Hop(Intake, Routed), Hop(Routed, Accepted), Hop(Accepted, Executing), Hop(Executing, Flagged),
             Hop(Flagged, HumanReview), Hop(HumanReview, Verified), Hop(Verified, Completed)];
  }
}
