/** Replay against the stored lifecycle over the runs of all services: which states drift, and when. */
module GovernanceDrift {
  import opened Common
  import opened CaseLifecycle
  import opened LifecycleReplay
  import opened ExecutionProgress
  import opened GovernanceStore
  import opened GovernanceRuns
  import opened Reconciliation

  lemma {:induction false} EventsConcat(ledger: seq<Fact>, more: seq<Fact>, t: TenantId, c: CaseId)
    ensures EventsOf(ledger + more, t, c) == EventsOf(ledger, t, c) + EventsOf(more, t, c)
    decreases |more|
  {
    if more == [] {
      assert ledger + more == ledger;
    } else {
      var init, last := more[..|more| - 1], more[|more| - 1];
      assert more == init + [last] && ledger + more == (ledger + init) + [last];
      EventsConcat(ledger, init, t, c);
      EventsSnoc(ledger + init, last, t, c);
    }
  }

  /** The row of the case, INTAKE as long as there is none. */
  function StoredIn(s: Store, t: TenantId, c: CaseId): Lifecycle {
    if CaseIn(s, t, c) then s.cases[c].lifecycle else Intake
  }

  // ---- A run, seen from one case, is a lawful history ----

  function Notes(events: seq<EventType>): (r: seq<Happening>)
    ensures |r| == |events|
  {
    seq(|events|, i requires 0 <= i < |events| => Note(events[i]))
  }

  /** What a step means for the case: its events, the last of them a transition when the row has moved. */
  function Happenings(s: Store, s': Store, t: TenantId, c: CaseId): seq<Happening>
    requires |s.ledger| <= |s'.ledger|
  {
    var events := EventsOf(s'.ledger[|s.ledger|..], t, c);
    if StoredIn(s', t, c) != StoredIn(s, t, c) && events != []
    then Notes(events[..|events| - 1]) + [Move(StoredIn(s', t, c))] else Notes(events)
  }

  lemma {:induction false} LedgerGrows(s: Store, step: Step)
    ensures s.ledger <= Apply(s, step).ledger
  {
    if IsPayment(step) {
      hide HasConsensus, IsLatestConsensus, ToCents, AuthorizeRefusal;
    } else {
      OrdinaryStep(s, step);
      hide Apply;
    }
  }

  function HistoryOf(steps: seq<Step>, t: TenantId, c: CaseId): seq<Happening> {
    if steps == [] then []
    else
      var s := Run(EMPTY_STORE, steps[..|steps| - 1]);
      LedgerGrows(s, steps[|steps| - 1]);
      HistoryOf(steps[..|steps| - 1], t, c) + Happenings(s, Apply(s, steps[|steps| - 1]), t, c)
  }

  lemma {:induction false} NotesPlay(history: seq<Happening>, events: seq<EventType>)
    requires Lawful(history)
    ensures Lawful(history + Notes(events))
    ensures Play(history + Notes(events)) == CaseView(Play(history).stored, Play(history).events + events)
    decreases |events|
  {
    if events == [] {
      assert history + Notes(events) == history;
      assert Play(history).events + events == Play(history).events;
    } else {
      var init, last := events[..|events| - 1], events[|events| - 1];
      NotesPlay(history, init);
      assert history + Notes(events) == (history + Notes(init)) + [Note(last)];
      assert events == init + [last];
      hide Play, Lawful;
      PlaySnoc(history + Notes(init), Note(last));
    }
  }

  lemma {:induction false} RowAfter(s: Store, step: Step, t: TenantId, c: CaseId)
    ensures
      var s' := Apply(s, step);
      StoredIn(s', t, c) != StoredIn(s, t, c) ==>
        MovesOne(s, s', t, c, StoredIn(s', t, c))
  {
    StepGrows(s, step);
    CasesAfter(s, step);
    hide Apply, Edge, EventFor;
    var s' := Apply(s, step);
    if !SameLifecycles(s, s') {
      var u, d, target :| MovesOne(s, s', u, d, target);
    }
  }

  /** One step of a run, played on the history of the case. */
  lemma {:induction false} StepPlays(s: Store, step: Step, t: TenantId, c: CaseId, history: seq<Happening>)
    requires Lawful(history) && Play(history).stored == StoredIn(s, t, c)
    requires |s.ledger| <= |Apply(s, step).ledger|
    ensures
      var s' := Apply(s, step);
      var history' := history + Happenings(s, s', t, c);
      && Lawful(history') && Play(history').stored == StoredIn(s', t, c)
      && Play(history').events == Play(history).events + EventsOf(s'.ledger[|s.ledger|..], t, c)
  {
    RowAfter(s, step, t, c);
    hide Apply, Edge, EventFor, Play, Lawful, StoredIn, EventsOf, Happenings;
    var s' := Apply(s, step);
    if StoredIn(s', t, c) != StoredIn(s, t, c) {
      MovingStep(s, s', t, c, StoredIn(s', t, c), history);
    } else {
      StillStep(s, s', t, c, history);
    }
  }

  lemma {:induction false} StillStep(s: Store, s': Store, t: TenantId, c: CaseId, history: seq<Happening>)
    requires Lawful(history) && |s.ledger| <= |s'.ledger| && StoredIn(s', t, c) == StoredIn(s, t, c)
    ensures
      var history' := history + Happenings(s, s', t, c);
      && Lawful(history') && Play(history').stored == Play(history).stored
      && Play(history').events == Play(history).events + EventsOf(s'.ledger[|s.ledger|..], t, c)
  {
    hide Play, Lawful, StoredIn, EventsOf;
    NotesPlay(history, EventsOf(s'.ledger[|s.ledger|..], t, c));
  }

  lemma {:induction false} MovingStep(s: Store, s': Store, t: TenantId, c: CaseId, target: Lifecycle,
                                      history: seq<Happening>)
    requires Lawful(history) && Play(history).stored == StoredIn(s, t, c)
    requires |s.ledger| <= |s'.ledger| && MovesOne(s, s', t, c, target)
    requires StoredIn(s', t, c) == target != StoredIn(s, t, c)
    ensures
      var history' := history + Happenings(s, s', t, c);
      && Lawful(history') && Play(history').stored == target
      && Play(history').events == Play(history).events + EventsOf(s'.ledger[|s.ledger|..], t, c)
  {
    hide Edge, EventFor, Play, Lawful, StoredIn, EventsOf;
    var facts := s'.ledger[|s.ledger|..];
    var events := EventsOf(facts, t, c);
    assert facts == facts[..|facts| - 1] + [Fact(t, c, EventFor(target))];
    EventsSnoc(facts[..|facts| - 1], Fact(t, c, EventFor(target)), t, c);
    var notes := events[..|events| - 1];
    assert events == notes + [EventFor(target)];
    MovePlays(s, t, c, history, notes, target);
  }

  lemma {:induction false} MovePlays(s: Store, t: TenantId, c: CaseId, history: seq<Happening>, notes: seq<EventType>,
                                     target: Lifecycle)
    requires Lawful(history) && Play(history).stored == StoredIn(s, t, c)
    requires CaseIn(s, t, c) && Edge(s.cases[c].lifecycle, target)
    ensures
      var history' := history + (Notes(notes) + [Move(target)]);
      Lawful(history') && Play(history') == CaseView(target, Play(history).events + (notes + [EventFor(target)]))
  {
    hide Edge, EventFor, Play, Lawful;
    NotesPlay(history, notes);
    assert history + (Notes(notes) + [Move(target)]) == (history + Notes(notes)) + [Move(target)];
    PlaySnoc(history + Notes(notes), Move(target));
    assert (Play(history).events + notes) + [EventFor(target)] == Play(history).events + (notes + [EventFor(target)]);
  }

  /** The history says what the store says. */
  predicate Tells(history: seq<Happening>, s: Store, t: TenantId, c: CaseId) {
    && Lawful(history) && Play(history).stored == StoredIn(s, t, c)
    && Play(history).events == [CaseCreated] + EventsOf(s.ledger, t, c)
  }

  lemma {:induction false} TellsOneMore(s: Store, step: Step, t: TenantId, c: CaseId, history: seq<Happening>)
    requires Tells(history, s, t, c) && s.ledger <= Apply(s, step).ledger
    ensures Tells(history + Happenings(s, Apply(s, step), t, c), Apply(s, step), t, c)
  {
    hide Apply, Play, Lawful, EventsOf, StoredIn, Happenings;
    var s' := Apply(s, step);
    var facts := s'.ledger[|s.ledger|..];
    assert s'.ledger == s.ledger + facts;
    assert Lawful(history) && Play(history).stored == StoredIn(s, t, c);
    assert Play(history).events == [CaseCreated] + EventsOf(s.ledger, t, c);
    hide *;
    StepPlays(s, step, t, c, history);
    EventsConcat(s.ledger, facts, t, c);
    Regroup([CaseCreated], EventsOf(s.ledger, t, c), EventsOf(facts, t, c));
    NowTells(history + Happenings(s, s', t, c), s', t, c);
  }

  lemma {:induction false} NowTells(history: seq<Happening>, s: Store, t: TenantId, c: CaseId)
    requires Lawful(history) && Play(history).stored == StoredIn(s, t, c)
    requires Play(history).events == [CaseCreated] + EventsOf(s.ledger, t, c)
    ensures Tells(history, s, t, c)
  {
  }

  lemma {:induction false} Regroup(a: seq<EventType>, b: seq<EventType>, c: seq<EventType>)
    ensures (a + b) + c == a + (b + c)
  {
  }

  /** Refinement: seen from one case, every run of the services is a lawful history of that case, with the
      run's ledger events and the run's stored lifecycle. */
  lemma {:induction false} RunsAreHistories(steps: seq<Step>, t: TenantId, c: CaseId)
    ensures Tells(HistoryOf(steps, t, c), Run(EMPTY_STORE, steps), t, c)
  {
    if steps == [] {
      assert [CaseCreated] + EventsOf([], t, c) == [CaseCreated];
    } else {
      var before, last := steps[..|steps| - 1], steps[|steps| - 1];
      var s := Run(EMPTY_STORE, before);
      LedgerGrows(s, last);
      assert HistoryOf(steps, t, c) == HistoryOf(before, t, c) + Happenings(s, Apply(s, last), t, c);
      assert Run(EMPTY_STORE, steps) == Apply(s, last);
      hide *;
      RunsAreHistories(before, t, c);
      TellsOneMore(s, last, t, c, HistoryOf(before, t, c));
    }
  }

  lemma {:induction false} CreationIsSilent(events: seq<EventType>)
    ensures Replay([CaseCreated] + events) == Replay(events)
    decreases |events|
  {
    if events == [] {
      ReplayAppend([], CaseCreated);
      assert [CaseCreated] + events == [] + [CaseCreated];
    } else {
      var init, last := events[..|events| - 1], events[|events| - 1];
      CreationIsSilent(init);
      assert events == init + [last] && [CaseCreated] + events == ([CaseCreated] + init) + [last];
      ReplayAppend(init, last);
      ReplayAppend([CaseCreated] + init, last);
    }
  }

  /** Drift over runs, exactly: replay of the ledger gives the stored lifecycle if and only if that is not
      HUMAN_REVIEW, REJECTED or COMPLETED, and the last event of the case that means anything to replay is
      a transition or denotes the state it was recorded in. */
  lemma {:induction false} DriftOverRuns(steps: seq<Step>, t: TenantId, c: CaseId)
    ensures
      var s := Run(EMPTY_STORE, steps);
      CaseIn(s, t, c) ==>
        (Derived(s, t, c) == s.cases[c].lifecycle
         <==> s.cases[c].lifecycle !in UNREPLAYED && LastWordAgrees(HistoryOf(steps, t, c)))
  {
    RunsAreHistories(steps, t, c);
    DriftIff(HistoryOf(steps, t, c));
    CreationIsSilent(EventsOf(Run(EMPTY_STORE, steps).ledger, t, c));
    hide Run, HistoryOf, Play, Lawful, LastWordAgrees, Replay;
  }

  // ---- Which states drift ----

  lemma {:induction false} DerivedIsSayable(s: Store, t: TenantId, c: CaseId)
    ensures Derived(s, t, c) !in UNREPLAYED
  {
    ReplayIsNever(EventsOf(s.ledger, t, c));
  }

  /** A lawful transition leaves replay at its target, unless the target is one replay never says. */
  lemma {:induction false} TransitionCatchesUp(s: Store, t: TenantId, c: CaseId, target: Lifecycle, a: Actor)
    requires TransitionRefusal(s, t, c, target, a).None? && target !in UNREPLAYED
    ensures
      var s' := Apply(s, Transition(t, c, target, a));
      CaseIn(s', t, c) && Derived(s', t, c) == target == s'.cases[c].lifecycle
  {
    assert Denotes(EventFor(target)) == Some(target);
    TransitionMoves(s, t, c, target, a);
    assert Apply(s, Transition(t, c, target, a)) == Transitioned(s, t, c, target);
    hide Apply, Replay, EventFor, Denotes, Edge, TransitionRefusal, Transitioned, EventsOf;
    SaidLast(Transitioned(s, t, c, target).ledger, t, c, EventFor(target), target);
  }

  lemma {:induction false} SaidLast(ledger: seq<Fact>, t: TenantId, c: CaseId, e: EventType, l: Lifecycle)
    requires ledger != [] && ledger[|ledger| - 1] == Fact(t, c, e) && Denotes(e) == Some(l)
    ensures Replay(EventsOf(ledger, t, c)) == l
  {
    var init := ledger[..|ledger| - 1];
    assert ledger == init + [Fact(t, c, e)];
    hide Replay, EventsOf;
    EventsSnoc(init, Fact(t, c, e), t, c);
    ReplayAppend(EventsOf(init, t, c), e);
  }

  /** A recorded delivery makes replay say EXECUTING, whatever state the case is in. */
  lemma {:induction false} DeliverySaysExecuting(s: Store, t: TenantId, c: CaseId)
    requires CaseIn(s, t, c)
    ensures
      var s' := Apply(s, RecordDelivery(t, c));
      CaseIn(s', t, c) && s'.cases[c] == s.cases[c] && Derived(s', t, c) == Executing
  {
    SaidLast(s.ledger + [Fact(t, c, ExecutionProgressRecorded)], t, c, ExecutionProgressRecorded, Executing);
    hide Replay;
  }

  /** About a case at EXECUTING, other ledger traffic means nothing to replay or EXECUTING; routing notes ROUTED
      only where the ledger holds no ROUTED yet. What else is recorded about cases in other states is free. */
  predicate ServiceStep(s: Store, step: Step) {
    step.RecordOther? && CaseIn(s, step.t, step.c) && s.cases[step.c].lifecycle == Executing ==>
      || Denotes(step.e).None?
      || Denotes(step.e).value == Executing
      || (step.e == RoutedEvent && Fact(step.t, step.c, RoutedEvent) !in s.ledger)
  }

  predicate ServiceRun(steps: seq<Step>) {
    steps == [] || (ServiceRun(steps[..|steps| - 1])
        && ServiceStep(Run(EMPTY_STORE, steps[..|steps| - 1]), steps[|steps| - 1]))
  }

  /** What is new about the case says EXECUTING or nothing. */
  predicate SaysExecuting(facts: seq<Fact>, t: TenantId, c: CaseId) {
    forall f :: f in facts && f.tenantId == t && f.caseId == c ==>
      Denotes(f.event).None? || Denotes(f.event).value == Executing
  }

  lemma {:induction false} StillExecuting(ledger: seq<Fact>, facts: seq<Fact>, t: TenantId, c: CaseId)
    requires Replay(EventsOf(ledger, t, c)) == Executing && SaysExecuting(facts, t, c)
    ensures Replay(EventsOf(ledger + facts, t, c)) == Executing
    decreases |facts|
  {
    if facts == [] {
      assert ledger + facts == ledger;
    } else {
      var init, last := facts[..|facts| - 1], facts[|facts| - 1];
      assert facts == init + [last] && ledger + facts == (ledger + init) + [last];
      assert last in facts && forall f :: f in init ==> f in facts;
      assert SaysExecuting(init, t, c);
      hide Replay, EventsOf, Denotes;
      StillExecuting(ledger, init, t, c);
      OneMoreFact(ledger + init, last, t, c);
    }
  }

  lemma {:induction false} OneMoreFact(ledger: seq<Fact>, f: Fact, t: TenantId, c: CaseId)
    requires Replay(EventsOf(ledger, t, c)) == Executing
    requires f.tenantId == t && f.caseId == c ==> Denotes(f.event).None? || Denotes(f.event).value == Executing
    ensures Replay(EventsOf(ledger + [f], t, c)) == Executing
  {
    hide Replay, EventsOf, Denotes;
    EventsSnoc(ledger, f, t, c);
    ReplayAppend(EventsOf(ledger, t, c), f.event);
    assert EventsOf(ledger, t, c) + [] == EventsOf(ledger, t, c);
  }

  lemma {:induction false} WorkSaysExecuting(s: Store, step: Step, t: TenantId, c: CaseId)
    requires IsWork(step)
    ensures s.ledger <= Apply(s, step).ledger
    ensures SaysExecuting(Apply(s, step).ledger[|s.ledger|..], t, c)
  {
    hide HasOpen, TotalWeight, CompletedWeight;
    match step
    case CompleteExecution(u, d, a) => if CompleteRefusal(s, u, d, a).None? { CompletionSaysExecuting(s, u, d, t, c); }
    case CompleteMilestone(u, d, i) =>
      if MilestoneRefusal(s, u, d, i).None? { MilestoneSaysExecuting(s, u, d, i, t, c); }
    case _ =>
  }

  lemma {:induction false} CompletionSaysExecuting(s: Store, u: TenantId, d: CaseId, t: TenantId, c: CaseId)
    requires d in s.executions
    ensures s.ledger <= ExecutionDone(s, u, d).ledger
    ensures SaysExecuting(ExecutionDone(s, u, d).ledger[|s.ledger|..], t, c)
  {
    hide HasOpen;
  }

  lemma {:induction false} MilestoneSaysExecuting(s: Store, u: TenantId, d: CaseId, i: nat, t: TenantId, c: CaseId)
    requires MilestoneRefusal(s, u, d, i).None?
    ensures s.ledger <= MilestoneDone(s, u, d, i).ledger
    ensures SaysExecuting(MilestoneDone(s, u, d, i).ledger[|s.ledger|..], t, c)
  {
    hide TotalWeight, CompletedWeight;
  }

  lemma {:induction false} PaymentSaysNothing(s: Store, step: Step, t: TenantId, c: CaseId)
    requires IsPayment(step)
    ensures s.ledger <= Apply(s, step).ledger
    ensures SaysExecuting(Apply(s, step).ledger[|s.ledger|..], t, c)
  {
    hide HasConsensus, IsLatestConsensus, ToCents, AuthorizeRefusal;
  }

  lemma {:induction false} SetupSaysNothing(s: Store, step: Step, t: TenantId, c: CaseId)
    requires IsSetup(step) && ServiceStep(s, step) && CaseIn(s, t, c) && s.cases[c].lifecycle == Executing
    requires Fact(t, c, RoutedEvent) in s.ledger
    ensures s.ledger <= Apply(s, step).ledger
    ensures SaysExecuting(Apply(s, step).ledger[|s.ledger|..], t, c)
  {
  }

  lemma {:induction false} RequestSaysNothing(s: Store, step: Step, t: TenantId, c: CaseId)
    requires step.RequestRound?
    ensures s.ledger <= Apply(s, step).ledger
    ensures SaysExecuting(Apply(s, step).ledger[|s.ledger|..], t, c)
  {
    hide HasOpen;
  }

  /** A step that moves some row says so last, and says nothing else that replay listens to. */
  lemma {:induction false} MoveSaysTarget(s: Store, step: Step, t: TenantId, c: CaseId)
    requires step.Transition? || step.Decide? || step.CastVote?
    requires CaseIn(s, t, c) && StoredIn(Apply(s, step), t, c) == s.cases[c].lifecycle
    ensures s.ledger <= Apply(s, step).ledger
    ensures SaysExecuting(Apply(s, step).ledger[|s.ledger|..], t, c)
  {
    match step
    case Transition(u, d, target, a) =>
      if TransitionRefusal(s, u, d, target, a).None? { NoLoops(s.cases[d].lifecycle, target); }
      hide Edge, EventFor;
    case Decide(q, now) => DecisionSaysTarget(s, q, now, t, c);
    case CastVote(id, v, now) => VoteSaysTarget(s, id, v, now, t, c);
  }

  lemma {:induction false} NoLoops(from: Lifecycle, to: Lifecycle)
    requires Edge(from, to)
    ensures from != to
  {
  }

  lemma {:induction false} DecisionSaysTarget(s: Store, q: DecisionRequest, now: int, t: TenantId, c: CaseId)
    requires CaseIn(s, t, c) && StoredIn(Apply(s, Decide(q, now)), t, c) == s.cases[c].lifecycle
    ensures s.ledger <= Apply(s, Decide(q, now)).ledger
    ensures SaysExecuting(Apply(s, Decide(q, now)).ledger[|s.ledger|..], t, c)
  {
    if DecisionRefusal(s, q).None? && q.effect.ExecutionVerified? { NoLoops(s.cases[q.caseId].lifecycle, Verified); }
    hide Decided, Edge, EventFor;
  }

  lemma {:induction false} VoteSaysTarget(s: Store, id: nat, v: Vote, now: int, t: TenantId, c: CaseId)
    requires CaseIn(s, t, c) && StoredIn(Apply(s, CastVote(id, v, now)), t, c) == s.cases[c].lifecycle
    ensures s.ledger <= Apply(s, CastVote(id, v, now)).ledger
    ensures SaysExecuting(Apply(s, CastVote(id, v, now)).ledger[|s.ledger|..], t, c)
  {
    if VoteRefusal(s, id, v).None? {
      VoteLedger(s, id, v, now);
      if ReachesQuorum(s.rounds[id], v) { VoteMovesOwn(s, id, v, now); }
      hide VoteRefusal, Voted, ReachesQuorum, Log;
      assert Apply(s, CastVote(id, v, now)) == Voted(s, id, v, now);
    } else {
      hide VoteRefusal;
      assert Apply(s, CastVote(id, v, now)) == s;
    }
  }

  lemma {:induction false} VoteLedger(s: Store, id: nat, v: Vote, now: int)
    requires VoteRefusal(s, id, v).None?
    ensures
      var r := s.rounds[id];
      Voted(s, id, v, now).ledger ==
      s.ledger + (if ReachesQuorum(r, v)
                  then [Fact(r.tenantId, r.caseId, VerificationSubmitted), Fact(r.tenantId, r.caseId, VerifiedEvent)]
                  else [Fact(r.tenantId, r.caseId, VerificationSubmitted)])
  {
    hide Decided, Approvals, MayVerify, HasVoted, Edge;
  }

  lemma {:induction false} VoteMovesOwn(s: Store, id: nat, v: Vote, now: int)
    requires VoteRefusal(s, id, v).None? && ReachesQuorum(s.rounds[id], v)
    ensures
      var r := s.rounds[id];
      && CaseIn(s, r.tenantId, r.caseId) && s.cases[r.caseId].lifecycle != Verified
      && CaseIn(Voted(s, id, v, now), r.tenantId, r.caseId)
      && Voted(s, id, v, now).cases[r.caseId].lifecycle == Verified
  {
    VotedParts(s, id, v, now);
    NoLoops(s.cases[s.rounds[id].caseId].lifecycle, Verified);
    hide Voted, VoteRefusal, Edge, Approvals;
  }

  lemma {:induction false} ServicesSayExecuting(s: Store, step: Step, t: TenantId, c: CaseId)
    requires ServiceStep(s, step) && CaseIn(s, t, c) && s.cases[c].lifecycle == Executing
    requires Fact(t, c, RoutedEvent) in s.ledger
    requires StoredIn(Apply(s, step), t, c) == Executing
    ensures s.ledger <= Apply(s, step).ledger
    ensures SaysExecuting(Apply(s, step).ledger[|s.ledger|..], t, c)
  {
    hide Apply, SaysExecuting, ServiceStep, StoredIn;
    if IsSetup(step) { SetupSaysNothing(s, step, t, c); }
    else if IsWork(step) { WorkSaysExecuting(s, step, t, c); }
    else if IsPayment(step) { PaymentSaysNothing(s, step, t, c); }
    else if step.RequestRound? { RequestSaysNothing(s, step, t, c); }
    else { MoveSaysTarget(s, step, t, c); }
  }

  /** The only way out of INTAKE leaves a ROUTED event, so in every run a case past INTAKE has one on record. */
  lemma {:induction false} RoutedIsOnRecord(steps: seq<Step>, t: TenantId, c: CaseId)
    ensures
      var s := Run(EMPTY_STORE, steps);
      StoredIn(s, t, c) != Intake ==> Fact(t, c, RoutedEvent) in s.ledger
  {
    if steps != [] {
      var before, last := steps[..|steps| - 1], steps[|steps| - 1];
      var s := Run(EMPTY_STORE, before);
      RoutedIsOnRecord(before, t, c);
      LedgerGrows(s, last);
      RowAfter(s, last, t, c);
      assert StoredIn(s, t, c) == Intake && CaseIn(s, t, c) ==> s.cases[c].lifecycle == Intake;
      OnlyRoutedFollowsIntake();
      hide Apply, Edge, EventFor, StoredIn;
    }
  }

  lemma {:induction false} OnlyRoutedFollowsIntake()
    ensures forall l :: Edge(Intake, l) ==> l == Routed
    ensures EventFor(Routed) == RoutedEvent
  {
  }

  /** As long as what is recorded about a case at EXECUTING means nothing to replay or EXECUTING, and routing
      keeps to its rule, a case at EXECUTING never drifts. */
  lemma {:induction false} ExecutingNeverDrifts(steps: seq<Step>, t: TenantId, c: CaseId)
    requires ServiceRun(steps)
    ensures
      var s := Run(EMPTY_STORE, steps);
      StoredIn(s, t, c) == Executing ==> Derived(s, t, c) == Executing
  {
    if steps != [] {
      var before, last := steps[..|steps| - 1], steps[|steps| - 1];
      ExecutingNeverDrifts(before, t, c);
      RoutedIsOnRecord(before, t, c);
      var s := Run(EMPTY_STORE, before);
      ExecutingStep(s, last, t, c);
      hide Apply, Derived, StoredIn, ServiceStep;
    }
  }

  lemma {:induction false} ExecutingStep(s: Store, step: Step, t: TenantId, c: CaseId)
    requires ServiceStep(s, step)
    requires StoredIn(s, t, c) == Executing ==> Derived(s, t, c) == Executing && Fact(t, c, RoutedEvent) in s.ledger
    ensures
      var s' := Apply(s, step);
      StoredIn(s', t, c) == Executing ==> Derived(s', t, c) == Executing
  {
    assert StoredIn(s, t, c) == Executing ==> CaseIn(s, t, c) && s.cases[c].lifecycle == Executing;
    hide Apply, Derived, StoredIn, CaseIn, ServiceStep;
    if StoredIn(Apply(s, step), t, c) == Executing {
      if StoredIn(s, t, c) == Executing { StaysExecuting(s, step, t, c); } else { BecomesExecuting(s, step, t, c); }
    }
  }

  lemma {:induction false} StaysExecuting(s: Store, step: Step, t: TenantId, c: CaseId)
    requires ServiceStep(s, step) && CaseIn(s, t, c) && s.cases[c].lifecycle == Executing
    requires Fact(t, c, RoutedEvent) in s.ledger
    requires StoredIn(Apply(s, step), t, c) == Executing && Derived(s, t, c) == Executing
    ensures Derived(Apply(s, step), t, c) == Executing
  {
    var s' := Apply(s, step);
    hide Apply, Replay, SaysExecuting, ServiceStep, EventsOf, StoredIn;
    ServicesSayExecuting(s, step, t, c);
    assert s'.ledger == s.ledger + s'.ledger[|s.ledger|..];
    StillExecuting(s.ledger, s'.ledger[|s.ledger|..], t, c);
  }

  lemma {:induction false} BecomesExecuting(s: Store, step: Step, t: TenantId, c: CaseId)
    requires StoredIn(Apply(s, step), t, c) == Executing != StoredIn(s, t, c)
    ensures Derived(Apply(s, step), t, c) == Executing
  {
    var s' := Apply(s, step);
    RowAfter(s, step, t, c);
    hide Apply, Replay, Edge, EventsOf, StoredIn;
    SaidLast(s'.ledger, t, c, ExecutionStarted, Executing);
  }

  // ---- Every other state can drift ----

  /** The transitions from INTAKE to a state replay can say. */
  function PathTo(l: Lifecycle): seq<Lifecycle> {
    match l
    case Routed => [Routed]
    case Accepted => [Routed, Accepted]
    case Executing => [Routed, Accepted, Executing]
    case Verified => [Routed, Accepted, Executing, Verified]
    case Flagged => [Routed, Accepted, Executing, Flagged]
    case _ => []
  }

  predicate Follows(from: Lifecycle, path: seq<Lifecycle>)
    decreases |path|
  {
    path == [] || (Edge(from, path[0]) && Follows(path[0], path[1..]))
  }

  predicate Started(s: Store, t: TenantId, c: CaseId, l: Lifecycle) {
    CaseIn(s, t, c) && s.cases[c].lifecycle == l && ExecutionIn(s, t, c)
  }

  lemma {:induction false} StartedMoves(s: Store, t: TenantId, c: CaseId, l: Lifecycle, target: Lifecycle)
    requires Started(s, t, c, l) && Edge(l, target)
    ensures TransitionRefusal(s, t, c, target, Officer()).None?
    ensures Started(Apply(s, Transition(t, c, target, Officer())), t, c, target)
  {
    hide Edge, EventFor;
  }

  lemma {:induction false} SnocServiceRun(steps: seq<Step>, step: Step)
    requires ServiceRun(steps) && !step.RecordOther?
    ensures ServiceRun(steps + [step]) && Run(EMPTY_STORE, steps + [step]) == Apply(Run(EMPTY_STORE, steps), step)
  {
    RunSnoc(EMPTY_STORE, steps, step);
    assert (steps + [step])[..|steps|] == steps;
    hide Apply, Run;
  }

  /** A service run that has brought the case to `l`. */
  ghost predicate Arrived(steps: seq<Step>, t: TenantId, c: CaseId, l: Lifecycle) {
    ServiceRun(steps) && Started(Run(EMPTY_STORE, steps), t, c, l)
  }

  lemma {:induction false} OneMove(steps: seq<Step>, t: TenantId, c: CaseId, l: Lifecycle, target: Lifecycle)
    requires Arrived(steps, t, c, l) && Edge(l, target) && target !in UNREPLAYED
    ensures
      var longer := steps + [Transition(t, c, target, Officer())];
      Arrived(longer, t, c, target) && Derived(Run(EMPTY_STORE, longer), t, c) == target
  {
    var s, a := Run(EMPTY_STORE, steps), Officer();
    assert Started(s, t, c, l) ==> CaseIn(s, t, c) && s.cases[c].lifecycle == l;
    hide Apply, Run, Derived, ServiceRun, Edge, Started;
    StartedMoves(s, t, c, l, target);
    TransitionCatchesUp(s, t, c, target, a);
    SnocServiceRun(steps, Transition(t, c, target, a));
  }

  lemma {:induction false} Walk(steps: seq<Step>, t: TenantId, c: CaseId, l: Lifecycle, path: seq<Lifecycle>)
    returns (longer: seq<Step>)
    requires Arrived(steps, t, c, l) && Follows(l, path) && forall x :: x in path ==> x !in UNREPLAYED
    ensures Arrived(longer, t, c, if path == [] then l else path[|path| - 1])
    ensures if path == [] then longer == steps else Derived(Run(EMPTY_STORE, longer), t, c) == path[|path| - 1]
    decreases |path|
  {
    hide Arrived, Derived, Run, Edge;
    if path == [] {
      longer := steps;
    } else {
      OneMove(steps, t, c, l, path[0]);
      longer := Walk(steps + [Transition(t, c, path[0], Officer())], t, c, path[0], path[1..]);
    }
  }

  lemma {:induction false} PathsFollow(l: Lifecycle)
    requires l in {Intake, Routed, Accepted, Verified, Flagged}
    ensures Follows(Intake, PathTo(l)) && forall x :: x in PathTo(l) ==> x !in UNREPLAYED
    ensures l == if PathTo(l) == [] then Intake else PathTo(l)[|PathTo(l)| - 1]
  {
    assert Follows(l, []);
    assert Follows(Executing, [l]) <==> Edge(Executing, l);
    assert [Accepted, Executing, l][1..] == [Executing, l] && [Executing, l][1..] == [l];
    assert [Routed, Accepted, Executing, l][1..] == [Accepted, Executing, l];
    assert [Routed, Accepted][1..] == [Accepted];
  }

  lemma {:induction false} StartedAtIntake(t: TenantId, c: CaseId) returns (steps: seq<Step>)
    ensures Arrived(steps, t, c, Intake)
  {
    var s1 := Apply(EMPTY_STORE, CreateCase(t, c));
    assert Started(Apply(s1, StartExecution(t, c, Officer())), t, c, Intake);
    assert Run(EMPTY_STORE, []) == EMPTY_STORE && ServiceRun([]);
    hide Apply, Run, ServiceRun, Started;
    SnocServiceRun([], CreateCase(t, c));
    SnocServiceRun([] + [CreateCase(t, c)], StartExecution(t, c, Officer()));
    steps := [] + [CreateCase(t, c)] + [StartExecution(t, c, Officer())];
  }

  /** Every state short of EXECUTING, and VERIFIED and FLAGGED, does drift: every case has a run of the
      services alone that takes it there without drift (INTAKE apart, where it started to drift) and on
      which one more recorded delivery makes replay say EXECUTING. */
  lemma {:induction false} EveryOtherStateCanDrift(l: Lifecycle, t: TenantId, c: CaseId) returns (steps: seq<Step>)
    requires l in {Intake, Routed, Accepted, Verified, Flagged}
    ensures ServiceRun(steps) && ServiceRun(steps + [RecordDelivery(t, c)])
    ensures StoredIn(Run(EMPTY_STORE, steps), t, c) == l && (l != Intake ==>
            Derived(Run(EMPTY_STORE, steps), t, c) == l)
    ensures
      var s' := Run(EMPTY_STORE, steps + [RecordDelivery(t, c)]);
      CaseIn(s', t, c) && s'.cases[c].lifecycle == l && Derived(s', t, c) == Executing
  {
    PathsFollow(l);
    assert l != Intake ==> PathTo(l) != [];
    steps := StartedAtIntake(t, c);
    var path := PathTo(l);
    hide *;
    steps := Walk(steps, t, c, Intake, path);
    DeliveryOnTop(steps, t, c, l);
  }

  lemma {:induction false} DeliveryOnTop(steps: seq<Step>, t: TenantId, c: CaseId, l: Lifecycle)
    requires Arrived(steps, t, c, l)
    ensures ServiceRun(steps) && ServiceRun(steps + [RecordDelivery(t, c)])
    ensures StoredIn(Run(EMPTY_STORE, steps), t, c) == l
    ensures
      var s' := Run(EMPTY_STORE, steps + [RecordDelivery(t, c)]);
      CaseIn(s', t, c) && s'.cases[c].lifecycle == l && Derived(s', t, c) == Executing
  {
    hide Apply, Run, Derived, ServiceRun;
    SnocServiceRun(steps, RecordDelivery(t, c));
    DeliverySaysExecuting(Run(EMPTY_STORE, steps), t, c);
  }
}
