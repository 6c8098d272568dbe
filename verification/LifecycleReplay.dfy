/** Replaying ordered ledger events into a lifecycle, and when that agrees with the stored lifecycle. */
module LifecycleReplay {
  import opened Common
  import opened CaseLifecycle

  /** What a single event says about the lifecycle; most events say nothing. */
  function Denotes(e: EventType): Option<Lifecycle> {
    match e
    case CaseCreated => Some(Intake)
    case RoutedEvent => Some(Routed)
    case CaseAccepted => Some(Accepted)
    case ExecutionStarted => Some(Executing)
    case ExecutionProgressRecorded => Some(Executing)
    case ExecutionCompleted => Some(Executing)
    case ExecutionAborted => Some(Flagged)
    case VerifiedEvent => Some(Verified)
    case CaseFlagged => Some(Flagged)
    case _ => None
  }

  /** `l` is the meaning of the last event that means anything, INTAKE when there is none. */
  ghost predicate IsReplayOf(events: seq<EventType>, l: Lifecycle) {
    || (l == Intake && forall i :: 0 <= i < |events| ==> Denotes(events[i]).None?)
    || exists k :: 0 <= k < |events| && Denotes(events[k]) == Some(l)
                   && forall i :: k < i < |events| ==> Denotes(events[i]).None?
  }

  function Replay(events: seq<EventType>): (l: Lifecycle)
    ensures IsReplayOf(events, l)
  {
    if events == [] then Intake
    else
      var last := events[|events| - 1];
      assert last == events[|events| - 1];
      if Denotes(last).Some? then Denotes(last).value else
        var l := Replay(events[..|events| - 1]);
        assert IsReplayOf(events, l) by { ReplaySkips(events, l); }
        l
  }

  lemma {:induction false} ReplaySkips(events: seq<EventType>, l: Lifecycle)
    requires |events| > 0 && Denotes(events[|events| - 1]).None?
    requires IsReplayOf(events[..|events| - 1], l)
    ensures IsReplayOf(events, l)
  {
    var init := events[..|events| - 1];
    if exists k :: 0 <= k < |init| && Denotes(init[k]) == Some(l)
                   && forall i :: k < i < |init| ==> Denotes(init[i]).None? {
      var k :| 0 <= k < |init| && Denotes(init[k]) == Some(l)
               && forall i :: k < i < |init| ==> Denotes(init[i]).None?;
      assert Denotes(events[k]) == Some(l);
      forall i | k < i < |events| ensures Denotes(events[i]).None? {
        if i < |init| { assert events[i] == init[i]; }
      }
    } else {
      forall i | 0 <= i < |events| ensures Denotes(events[i]).None? {
        if i < |init| { assert events[i] == init[i]; }
      }
    }
  }

  /** The source's loop: reassign the local lifecycle event by event. */
  method DeriveLifecycleFromLedger(events: seq<EventType>) returns (lifecycle: Lifecycle)
    ensures lifecycle == Replay(events)
  {
    lifecycle := Intake;
    for i := 0 to |events|
      invariant lifecycle == Replay(events[..i])
    {
      assert events[..i + 1][..i] == events[..i];
      match events[i]
      case CaseCreated => lifecycle := Intake;
      case RoutedEvent => lifecycle := Routed;
      case CaseAccepted => lifecycle := Accepted;
      case ExecutionStarted => lifecycle := Executing;
      case ExecutionProgressRecorded => lifecycle := Executing;
      case ExecutionCompleted => lifecycle := Executing;
      case ExecutionAborted => lifecycle := Flagged;
      case VerifiedEvent => lifecycle := Verified;
      case CaseFlagged => lifecycle := Flagged;
      case LifecycleRepaired =>
      case _ =>
    }
    assert events[..|events|] == events;
  }

  /** One thing that can happen to a case: a lawful transition, or any other ledger event about it. */
  datatype Happening = Move(to: Lifecycle) | Note(event: EventType)

  datatype CaseView = CaseView(stored: Lifecycle, events: seq<EventType>)

  predicate Lawful(history: seq<Happening>) {
    history == [] ||
    var before := history[..|history| - 1];
    Lawful(before) &&
    match history[|history| - 1]
    case Move(to) => Edge(Play(before).stored, to)
    case Note(_) => true
  }

  /** The row and the ledger after a history that starts at creation. */
  function Play(history: seq<Happening>): CaseView {
    if history == [] then CaseView(Intake, [CaseCreated])
    else
      var v := Play(history[..|history| - 1]);
      match history[|history| - 1]
      case Move(to) => CaseView(to, v.events + [EventFor(to)])
      case Note(e) => CaseView(v.stored, v.events + [e])
  }

  /** What replay makes of a stored state: three states are not replayed to themselves. */
  function Image(l: Lifecycle): Lifecycle {
    match l
    case HumanReview => Flagged
    case Rejected => Flagged
    case Completed => Executing
    case _ => l
  }

  /** Every extra event is ignored by replay or denotes the image of the state it is recorded in. */
  predicate Quiet(history: seq<Happening>) {
    history == [] ||
    var before := history[..|history| - 1];
    Quiet(before) &&
    match history[|history| - 1]
    case Move(_) => true
    case Note(e) => Denotes(e).None? || Denotes(e) == Some(Image(Play(before).stored))
  }

  /** Terminal and unreachable states have no outgoing edge into a state replay does not see. */
  lemma {:induction false} ImageOfEdge(from: Lifecycle, to: Lifecycle)
    requires Edge(from, to)
    ensures Denotes(EventFor(to)) == Some(Image(to)) ||
            (Denotes(EventFor(to)).None? && Image(to) == Image(from))
  {
  }

  lemma {:induction false} ReplayAppend(events: seq<EventType>, e: EventType)
    ensures Replay(events + [e]) == if Denotes(e).Some? then Denotes(e).value else Replay(events)
  {
    assert (events + [e])[..|events|] == events;
  }

  ghost predicate Tracks(history: seq<Happening>) {
    Replay(Play(history).events) == Image(Play(history).stored)
  }

  /** Tracking at every moment of `history`. */
  ghost predicate AlwaysTracks(history: seq<Happening>) {
    forall n :: 0 <= n <= |history| ==> Tracks(history[..n])
  }

  lemma {:induction false} CreationTracks()
    ensures AlwaysTracks([])
  {
    ReplayAppend([], CaseCreated);
    assert [] + [CaseCreated] == Play([]).events;
    assert Tracks([]);
    var none: seq<Happening> := [];
    assert none[..0] == none;
  }

  /** A lawful move restores or keeps tracking; any other event keeps it iff it is a quiet one. */
  lemma {:induction false} OneMoreHappening(before: seq<Happening>, x: Happening)
    requires Lawful(before + [x])
    ensures x.Move? && Tracks(before) ==> Tracks(before + [x])
    ensures x.Note? && Tracks(before) ==>
              (Tracks(before + [x]) <==>
               (Denotes(x.event).None? || Denotes(x.event) == Some(Image(Play(before).stored))))
  {
    assert (before + [x])[..|before|] == before;
    var v := Play(before);
    match x
    case Move(to) => ReplayAppend(v.events, EventFor(to)); ImageOfEdge(v.stored, to);
    case Note(e) => ReplayAppend(v.events, e);
  }

  lemma {:induction false} AlwaysTracksSnoc(before: seq<Happening>, x: Happening)
    ensures AlwaysTracks(before + [x]) <==> AlwaysTracks(before) && Tracks(before + [x])
    ensures AlwaysTracks(before) ==> Tracks(before)
  {
    hide Tracks;
    var history := before + [x];
    assert history[..|history|] == history && before[..|before|] == before;
    assert forall n :: 0 <= n <= |before| ==> history[..n] == before[..n];
  }

  /** Replay tracks the image of the stored state at every moment exactly for the quiet histories. */
  lemma {:induction false} ReplayTracksStored(history: seq<Happening>)
    requires Lawful(history)
    ensures Quiet(history) <==> AlwaysTracks(history)
  {
    hide Tracks, AlwaysTracks, Denotes, Image, Play, EventFor, Edge;
    if history == [] {
      CreationTracks();
    } else {
      var before, x := history[..|history| - 1], history[|history| - 1];
      assert history == before + [x];
      ReplayTracksStored(before);
      OneMoreHappening(before, x);
      AlwaysTracksSnoc(before, x);
    }
  }

  // ---- The exact condition, moment by moment ----

  /** The happening leaves an event that means something to replay. */
  predicate Speaks(x: Happening) {
    match x
    case Move(to) => Denotes(EventFor(to)).Some?
    case Note(e) => Denotes(e).Some?
  }

  /** The k-th happening is a transition, or a note that denotes the image of the state it is recorded in. */
  predicate Agrees(history: seq<Happening>, k: nat)
    requires k < |history|
  {
    history[k].Move? || Denotes(history[k].event) == Some(Image(Play(history[..k]).stored))
  }

  /** Of everything after creation that means something to replay, the last agrees. */
  ghost predicate LastWordAgrees(history: seq<Happening>) {
    || (forall i :: 0 <= i < |history| ==> !Speaks(history[i]))
    || exists k :: 0 <= k < |history| && IsLastWord(history, k) && Agrees(history, k)
  }

  predicate IsLastWord(history: seq<Happening>, k: nat)
    requires k < |history|
  {
    Speaks(history[k]) && forall i :: k < i < |history| ==> !Speaks(history[i])
  }

  lemma {:induction false} LastWordSnoc(before: seq<Happening>, x: Happening)
    ensures Speaks(x) ==> (LastWordAgrees(before + [x]) <==>
            x.Move? || Denotes(x.event) == Some(Image(Play(before).stored)))
    ensures !Speaks(x) ==> (LastWordAgrees(before + [x]) <==> LastWordAgrees(before))
  {
    var history := before + [x];
    hide Speaks, Image, Denotes, Play;
    assert history[..|before|] == before;
    assert forall k :: 0 <= k < |before| ==> history[k] == before[k] && history[..k] == before[..k];
    if Speaks(x) {
      assert IsLastWord(history, |before|);
      if LastWordAgrees(history) {
        var k :| 0 <= k < |history| && IsLastWord(history, k) && Agrees(history, k);
        assert k == |before|;
      }
    } else {
      if LastWordAgrees(history) { LastWordBefore(before, x); }
      if LastWordAgrees(before) { LastWordAfter(before, x); }
    }
  }

  lemma {:induction false} LastWordBefore(before: seq<Happening>, x: Happening)
    requires !Speaks(x) && LastWordAgrees(before + [x])
    ensures LastWordAgrees(before)
  {
    var history := before + [x];
    hide Speaks, Image, Denotes, Play;
    assert forall k :: 0 <= k < |before| ==> history[k] == before[k] && history[..k] == before[..k];
    if exists i :: 0 <= i < |history| && Speaks(history[i]) {
      var k :| 0 <= k < |history| && IsLastWord(history, k) && Agrees(history, k);
      assert IsLastWord(before, k) && Agrees(before, k);
    } else {
      forall i | 0 <= i < |before| ensures !Speaks(before[i]) { assert !Speaks(history[i]); }
    }
  }

  lemma {:induction false} LastWordAfter(before: seq<Happening>, x: Happening)
    requires !Speaks(x) && LastWordAgrees(before)
    ensures LastWordAgrees(before + [x])
  {
    var history := before + [x];
    hide Speaks, Image, Denotes, Play;
    assert forall k :: 0 <= k < |before| ==> history[k] == before[k] && history[..k] == before[..k];
    if exists i :: 0 <= i < |before| && Speaks(before[i]) {
      var k :| 0 <= k < |before| && IsLastWord(before, k) && Agrees(before, k);
      assert IsLastWord(history, k) && Agrees(history, k);
    }
  }

  /** Replay tracks the image of the stored state at this moment exactly when the last happening that means
      anything to it is a transition, or a note denoting the image of the state it was recorded in. */
  lemma {:induction false} TracksIffLastWordAgrees(history: seq<Happening>)
    requires Lawful(history)
    ensures Tracks(history) <==> LastWordAgrees(history)
  {
    if history == [] {
      CreationTracks();
      assert history[..0] == history;
    } else {
      var before, x := history[..|history| - 1], history[|history| - 1];
      assert history == before + [x];
      TracksIffLastWordAgrees(before);
      LastWordSnoc(before, x);
      TracksSnoc(before, x);
    }
  }

  lemma {:induction false} TracksSnoc(before: seq<Happening>, x: Happening)
    requires Lawful(before + [x])
    ensures Speaks(x) ==> (Tracks(before + [x]) <==> x.Move? || Denotes(x.event) == Some(Image(Play(before).stored)))
    ensures !Speaks(x) ==> (Tracks(before + [x]) <==> Tracks(before))
  {
    assert (before + [x])[..|before|] == before;
    var v := Play(before);
    match x
    case Move(to) => ReplayAppend(v.events, EventFor(to)); ImageOfEdge(v.stored, to);
    case Note(e) => ReplayAppend(v.events, e);
  }

  const UNREPLAYED: set<Lifecycle> := {HumanReview, Rejected, Completed}

  lemma {:induction false} ReplayIsNever(events: seq<EventType>)
    ensures Replay(events) !in UNREPLAYED
  {
    if events != [] { ReplayIsNever(events[..|events| - 1]); }
  }

  lemma {:induction false} ImageOfReplayed(l: Lifecycle)
    ensures Image(l) == l <==> l !in UNREPLAYED
  {
  }

  /** Drift, for every lawful history whatever: the stored state is what replay says if and only if it is
      none of the three states replay never says, and the last word agrees. */
  lemma {:induction false} DriftIff(history: seq<Happening>)
    requires Lawful(history)
    ensures Replay(Play(history).events) == Play(history).stored
            <==> Play(history).stored !in UNREPLAYED && LastWordAgrees(history)
  {
    TracksIffLastWordAgrees(history);
    ReplayIsNever(Play(history).events);
    ImageOfReplayed(Play(history).stored);
    hide Play, Replay, LastWordAgrees, Lawful;
  }

  // ---- Histories whose notes come early ----

  /** Notes that mean something are recorded before EXECUTING, or in EXECUTING and about the execution.
      Starting an execution, recording deliveries and routing before the case is EXECUTING all qualify. */
  predicate EarlyNotes(history: seq<Happening>) {
    history == [] ||
    var before := history[..|history| - 1];
    EarlyNotes(before) &&
    match history[|history| - 1]
    case Move(_) => true
    case Note(e) =>
      || Denotes(e).None?
      || Height(Play(before).stored) < Height(Executing)
      || (Play(before).stored == Executing && Denotes(e) == Some(Executing))
  }

  /** From EXECUTING on such a history has no memory of its early notes: the transition to EXECUTING was the
      last word, so drift is a matter of the stored state alone, in three states always. */
  lemma {:induction false} DriftStates(history: seq<Happening>)
    requires Lawful(history) && EarlyNotes(history) && Height(Play(history).stored) >= Height(Executing)
    ensures Replay(Play(history).events) == Image(Play(history).stored)
    ensures Replay(Play(history).events) != Play(history).stored <==> Play(history).stored in UNREPLAYED
  {
    ImageOfReplayed(Play(history).stored);
    CaughtUp(history);
    assert Tracks(history);
    hide Play, Replay, Image, Lawful, EarlyNotes;
  }

  lemma {:induction false} CaughtUp(history: seq<Happening>)
    requires Lawful(history) && EarlyNotes(history) && Height(Play(history).stored) >= Height(Executing)
    ensures Tracks(history)
  {
    var before, x := history[..|history| - 1], history[|history| - 1];
    assert history == before + [x];
    TracksSnoc(before, x);
    if x.Move? && Height(Play(before).stored) < Height(Executing) {
      ReachingExecutingSpeaks(Play(before).stored, x.to);
    }
    hide Tracks, Denotes, EventFor, Image, Edge;
    if Height(Play(before).stored) >= Height(Executing) { CaughtUp(before); }
    assert Image(Executing) == Executing by { ImageOfReplayed(Executing); }
  }

  /** The only edge into EXECUTING and beyond from before it is the one to EXECUTING, whose event speaks. */
  lemma {:induction false} ReachingExecutingSpeaks(from: Lifecycle, to: Lifecycle)
    requires Edge(from, to) && Height(from) < Height(Executing) <= Height(to)
    ensures to == Executing && Speaks(Move(to))
  {
  }

  /** The state transition to EXECUTING demands an execution row, and creating that row records
      EXECUTION_STARTED while the case is still before EXECUTING: replay then runs ahead of the row, until
      the next transition, which catches up. */
  lemma {:induction false} StartedBeforeExecutingDrifts(history: seq<Happening>, target: Lifecycle)
    requires Lawful(history) && Play(history).stored in {Intake, Routed, Accepted}
    ensures
      var started := history + [Note(ExecutionStarted)];
      && Lawful(started) && Replay(Play(started).events) == Executing
      && Play(started).stored == Play(history).stored != Executing
      && (Edge(Play(started).stored, target) ==>
            Lawful(started + [Move(target)])
            && Replay(Play(started + [Move(target)]).events) == target == Play(started + [Move(target)]).stored)
  {
    var started := history + [Note(ExecutionStarted)];
    assert Denotes(ExecutionStarted) == Some(Executing);
    assert forall l :: Edge(Play(history).stored, l) ==> Denotes(EventFor(l)) == Some(l);
    hide Play, Lawful, Replay, Denotes, EventFor, Edge;
    PlaySnoc(history, Note(ExecutionStarted));
    PlaySnoc(started, Move(target));
    ReplayAppend(Play(history).events, ExecutionStarted);
    ReplayAppend(Play(started).events, EventFor(target));
  }

  lemma {:induction false} PlaySnoc(before: seq<Happening>, x: Happening)
    ensures Play(before + [x]) == match x
                                  case Move(to) => CaseView(to, Play(before).events + [EventFor(to)])
                                  case Note(e) => CaseView(Play(before).stored, Play(before).events + [e])
    ensures Lawful(before + [x]) <==> Lawful(before) && (x.Move? ==> Edge(Play(before).stored, x.to))
  {
    assert (before + [x])[..|before|] == before;
    hide EventFor, Edge;
  }

  /** What each event says when it stands alone; all others say nothing. */
  const SAYS: map<EventType, Lifecycle> := map[
    CaseCreated := Intake, RoutedEvent := Routed, CaseAccepted := Accepted,
    ExecutionStarted := Executing, ExecutionProgressRecorded := Executing, ExecutionCompleted := Executing,
    ExecutionAborted := Flagged, CaseFlagged := Flagged, VerifiedEvent := Verified
  ]

  /** The replay is what the last saying event says, INTAKE when there is none. */
  lemma {:induction false} ReplayIs(events: seq<EventType>, l: Lifecycle)
    ensures Replay(events) == l <==>
            || (l == Intake && forall i :: 0 <= i < |events| ==> events[i] !in SAYS)
            || exists k :: 0 <= k < |events| && events[k] in SAYS && SAYS[events[k]] == l
                           && forall i :: k < i < |events| ==> events[i] !in SAYS
  {
    hide Replay, SAYS, Denotes;
    forall e: EventType ensures Denotes(e) == if e in SAYS then Some(SAYS[e]) else None { SaysIsDenotes(e); }
    if IsReplayOf(events, l) { OneReplay(events, l, Replay(events)); }
  }

  lemma {:induction false} OneReplay(events: seq<EventType>, l: Lifecycle, m: Lifecycle)
    requires IsReplayOf(events, l) && IsReplayOf(events, m)
    ensures l == m
  {
    hide Denotes;
  }

  lemma {:induction false} SaysIsDenotes(e: EventType)
    ensures Denotes(e) == if e in SAYS then Some(SAYS[e]) else None
  {
  }
}
