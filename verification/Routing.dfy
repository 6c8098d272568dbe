/** Choosing an execution body for a case, and recording the choice once. */
module Routing {
  import opened Common
  import opened CaseLifecycle
  import opened Ledger

  /** Ids are compared by one total order. */
  type BodyId = nat

  datatype Body = Body(id: BodyId, goals: set<string>)

  predicate Supports(b: Body, intent: string) {
    intent in b.goals
  }

  datatype Outcome = Matched | Fallback
  datatype Reason = OriginatorCapable | MatchedReason | FallbackNoCandidates | FallbackNoMatch
  datatype Choice = Choice(body: BodyId, outcome: Outcome, reason: Reason)

  // ---- The pure engine ----

  predicate SortedById(bs: seq<Body>) {
    forall i, j :: 0 <= i < j < |bs| ==> bs[i].id <= bs[j].id
  }

  function InsertById(b: Body, bs: seq<Body>): (r: seq<Body>)
    ensures multiset(r) == multiset(bs) + multiset{b}
  {
    if bs == [] || b.id <= bs[0].id then [b] + bs
    else
      assert bs == [bs[0]] + bs[1..];
      [bs[0]] + InsertById(b, bs[1..])
  }

  function SortById(bs: seq<Body>): (r: seq<Body>)
    ensures multiset(r) == multiset(bs)
  {
    if bs == [] then []
    else
      assert bs == [bs[0]] + bs[1..];
      InsertById(bs[0], SortById(bs[1..]))
  }

  lemma {:induction false} InsertKeepsSorted(b: Body, bs: seq<Body>)
    requires SortedById(bs)
    ensures SortedById(InsertById(b, bs))
  {
    if bs != [] && b.id > bs[0].id {
      var rest := InsertById(b, bs[1..]);
      InsertKeepsSorted(b, bs[1..]);
      forall j | 0 <= j < |rest| ensures bs[0].id <= rest[j].id {
        assert rest[j] in multiset(rest);
        assert rest[j] in multiset(bs[1..]) || rest[j] == b;
        if rest[j] != b { assert rest[j] in bs[1..]; }
      }
    }
  }

  lemma {:induction false} SortSorts(bs: seq<Body>)
    ensures SortedById(SortById(bs))
  {
    if bs != [] {
      SortSorts(bs[1..]);
      InsertKeepsSorted(bs[0], SortById(bs[1..]));
    }
  }

  /** Lookup in the id map; of several entries with one id the last wins. */
  function ById(bs: seq<Body>, id: BodyId): (r: Option<Body>)
    ensures r.Some? ==> r.value in bs && r.value.id == id
    ensures r.None? ==> forall b :: b in bs ==> b.id != id
  {
    if bs == [] then None
    else if bs[|bs| - 1].id == id then Some(bs[|bs| - 1])
    else
      assert bs == bs[..|bs| - 1] + [bs[|bs| - 1]];
      ById(bs[..|bs| - 1], id)
  }

  function FirstCapable(bs: seq<Body>, intent: string): (r: Option<Body>)
    ensures r.None? <==> forall b :: b in bs ==> !Supports(b, intent)
    ensures r.Some? ==> r.value in bs && Supports(r.value, intent)
    ensures r.Some? && SortedById(bs) ==> forall b :: b in bs && Supports(b, intent) ==> r.value.id <= b.id
  {
    if bs == [] then None
    else if Supports(bs[0], intent) then Some(bs[0])
    else
      assert bs == [bs[0]] + bs[1..];
      FirstCapable(bs[1..], intent)
  }

  /** None stands for the throw ROUTING_UNASSIGNABLE_NO_FALLBACK. */
  function ComputeRouting(intent: string, origin: Option<BodyId>, candidates: seq<Body>, fallback: Option<BodyId>)
    : Option<Choice>
  {
    var sorted := SortById(candidates);
    var originator := if origin.Some? then ById(sorted, origin.value) else None;
    if originator.Some? && Supports(originator.value, intent)
    then Some(Choice(originator.value.id, Matched, OriginatorCapable))
    else
      var matched := FirstCapable(sorted, intent);
      if matched.Some? then Some(Choice(matched.value.id, Matched, MatchedReason))
      else if fallback.None? then None
      else Some(Choice(fallback.value, Fallback, if |sorted| == 0 then FallbackNoCandidates else FallbackNoMatch))
  }

  predicate DistinctIds(bs: seq<Body>) {
    forall i, j :: 0 <= i < j < |bs| ==> bs[i].id != bs[j].id
  }

  predicate Capable(bs: seq<Body>, id: BodyId, intent: string) {
    exists b :: b in bs && b.id == id && Supports(b, intent)
  }

  /** The capable originator, else the least capable id, else the fallback. */
  ghost predicate IsRightChoice(intent: string, origin: Option<BodyId>, bs: seq<Body>, fallback: Option<BodyId>,
                                r: Option<Choice>) {
    if origin.Some? && Capable(bs, origin.value, intent) then
      r == Some(Choice(origin.value, Matched, OriginatorCapable))
    else if exists id :: Capable(bs, id, intent) then
      r.Some? && r.value.outcome == Matched && r.value.reason == MatchedReason && Capable(bs, r.value.body, intent)
      && forall id :: Capable(bs, id, intent) ==> r.value.body <= id
    else if fallback.None? then r == None
    else r == Some(Choice(fallback.value, Fallback, if bs == [] then FallbackNoCandidates else FallbackNoMatch))
  }

  lemma {:induction false} SameMembers(a: seq<Body>, b: seq<Body>)
    requires multiset(a) == multiset(b)
    ensures forall x :: x in a <==> x in b
    ensures |a| == |b|
  {
    forall x ensures x in a <==> x in b {
      assert x in a <==> x in multiset(a);
      assert x in b <==> x in multiset(b);
    }
    assert |multiset(a)| == |a| && |multiset(b)| == |b|;
  }

  lemma {:induction false} IdsDecide(bs: seq<Body>, x: Body, y: Body)
    requires DistinctIds(bs) && x in bs && y in bs && x.id == y.id
    ensures x == y
  {
    var i :| 0 <= i < |bs| && bs[i] == x;
    var j :| 0 <= j < |bs| && bs[j] == y;
    assert i == j;
  }

  lemma {:induction false} OriginatorFound(sorted: seq<Body>, origin: BodyId, intent: string)
    requires DistinctIds(sorted)
    ensures ById(sorted, origin).Some? && Supports(ById(sorted, origin).value, intent) <==>
            Capable(sorted, origin, intent)
  {
    var r := ById(sorted, origin);
    if Capable(sorted, origin, intent) {
      var b :| b in sorted && b.id == origin && Supports(b, intent);
      if r.Some? { IdsDecide(sorted, b, r.value); }
    }
  }

  lemma {:induction false} LeastFound(sorted: seq<Body>, intent: string)
    requires SortedById(sorted)
    ensures FirstCapable(sorted, intent).Some? <==> exists id :: Capable(sorted, id, intent)
    ensures FirstCapable(sorted, intent).Some? ==>
              var id := FirstCapable(sorted, intent).value.id;
              Capable(sorted, id, intent) && forall id' :: Capable(sorted, id', intent) ==> id <= id'
  {
    var r := FirstCapable(sorted, intent);
    if r.Some? { assert Capable(sorted, r.value.id, intent); }
  }

  lemma {:induction false} SortKeepsIdsDistinct(bs: seq<Body>)
    requires DistinctIds(bs)
    ensures DistinctIds(SortById(bs))
  {
    var sorted := SortById(bs);
    SameMembers(sorted, bs);
    forall i, j | 0 <= i < j < |sorted| ensures sorted[i].id != sorted[j].id {
      if sorted[i].id == sorted[j].id {
        assert sorted[i] in bs && sorted[j] in bs;
        IdsDecide(bs, sorted[i], sorted[j]);
        TwiceInSeq(sorted, i, j);
        OnceInDistinct(bs, sorted[i]);
        assert false;
      }
    }
  }

  lemma {:induction false} TwiceInSeq(bs: seq<Body>, i: nat, j: nat)
    requires i < j < |bs| && bs[i] == bs[j]
    ensures multiset(bs)[bs[i]] >= 2
  {
    assert bs == bs[..i] + [bs[i]] + bs[i + 1..j] + [bs[j]] + bs[j + 1..];
  }

  lemma {:induction false} OnceInDistinct(bs: seq<Body>, b: Body)
    requires DistinctIds(bs)
    ensures multiset(bs)[b] <= 1
  {
    if bs != [] {
      var init, last := bs[..|bs| - 1], bs[|bs| - 1];
      assert bs == init + [last];
      OnceInDistinct(init, b);
      if b == last { assert b !in init; }
    }
  }

  lemma {:induction false} RightForSorted(intent: string, origin: Option<BodyId>, candidates: seq<Body>,
                                          fallback: Option<BodyId>)
    requires DistinctIds(candidates)
    ensures IsRightChoice(intent, origin, SortById(candidates), fallback,
                          ComputeRouting(intent, origin, candidates, fallback))
  {
    var sorted := SortById(candidates);
    SortSorts(candidates);
    SortKeepsIdsDistinct(candidates);
    if origin.Some? { OriginatorFound(sorted, origin.value, intent); }
    LeastFound(sorted, intent);
    hide SortById, ById, FirstCapable, Capable;
  }

  /** With distinct ids the engine makes the right choice. */
  lemma {:induction false} RoutingIsRight(intent: string, origin: Option<BodyId>, candidates: seq<Body>,
                                          fallback: Option<BodyId>)
    requires DistinctIds(candidates)
    ensures IsRightChoice(intent, origin, candidates, fallback, ComputeRouting(intent, origin, candidates, fallback))
  {
    var sorted := SortById(candidates);
    RightForSorted(intent, origin, candidates, fallback);
    SameMembers(sorted, candidates);
    forall id ensures Capable(candidates, id, intent) <==> Capable(sorted, id, intent) {}
    hide SortById, ComputeRouting, Capable;
  }

  lemma {:induction false} RightChoiceIsUnique(intent: string, origin: Option<BodyId>, bs: seq<Body>,
                                               fallback: Option<BodyId>, r: Option<Choice>, r': Option<Choice>)
    requires IsRightChoice(intent, origin, bs, fallback, r) && IsRightChoice(intent, origin, bs, fallback, r')
    ensures r == r'
  {
  }

  /** The order in which candidates are listed is irrelevant. */
  lemma {:induction false} OrderIrrelevant(intent: string, origin: Option<BodyId>, a: seq<Body>, b: seq<Body>,
                                           fallback: Option<BodyId>)
    requires DistinctIds(a) && DistinctIds(b) && multiset(a) == multiset(b)
    ensures ComputeRouting(intent, origin, a, fallback) == ComputeRouting(intent, origin, b, fallback)
  {
    RoutingIsRight(intent, origin, a, fallback);
    RoutingIsRight(intent, origin, b, fallback);
    SameMembers(a, b);
    forall id ensures Capable(a, id, intent) <==> Capable(b, id, intent) {}
    RightChoiceIsUnique(intent, origin, a, fallback, ComputeRouting(intent, origin, a, fallback),
                        ComputeRouting(intent, origin, b, fallback));
  }

  // ---- Recording the choice ----

  datatype BodyRow = BodyRow(tenantId: TenantId, body: Body, isFallback: bool)
  datatype CaseRow = CaseRow(tenantId: TenantId, origin: Option<BodyId>)
  datatype Decision = Decision(tenantId: TenantId, caseId: CaseId, body: BodyId, outcome: Outcome)

  datatype RoutingError = CaseMissing | Unassignable | LedgerRefused(error: LedgerError)

  const SYSTEM_PROOF := "system:KHALISTAR"

  datatype State = State(
    cases: map<CaseId, CaseRow>,
    bodies: seq<BodyRow>,
    decisions: seq<Decision>,
    commits: seq<Commit>,
    nextTs: nat
  )

  /** The tenant's bodies, in table order. */
  function BodiesOf(rows: seq<BodyRow>, t: TenantId): (r: seq<Body>) {
    if rows == [] then []
    else
      var last := rows[|rows| - 1];
      BodiesOf(rows[..|rows| - 1], t) + if last.tenantId == t then [last.body] else []
  }

  /** The tenant's fallback body with the least id. */
  function FallbackOf(rows: seq<BodyRow>, t: TenantId): (r: Option<BodyId>)
    ensures r.None? <==> forall b :: b in rows && b.tenantId == t ==> !b.isFallback
    ensures r.Some? ==> exists b :: b in rows && b.tenantId == t && b.isFallback && b.body.id == r.value
    ensures r.Some? ==> forall b :: b in rows && b.tenantId == t && b.isFallback ==> r.value <= b.body.id
  {
    if rows == [] then None
    else
      var last := rows[|rows| - 1];
      assert rows == rows[..|rows| - 1] + [last];
      var rest := FallbackOf(rows[..|rows| - 1], t);
      if last.tenantId == t && last.isFallback && (rest.None? || last.body.id < rest.value)
      then assert last in rows; Some(last.body.id) else rest
  }

  predicate DecisionFor(d: Decision, t: TenantId, c: CaseId) {
    d.tenantId == t && d.caseId == c
  }

  predicate ActiveRouted(commits: seq<Commit>, i: nat, t: TenantId, c: CaseId) {
    && i < |commits| && commits[i].entry.tenantId == t && commits[i].entry.caseId == Some(c)
    && commits[i].entry.eventType == RoutedEvent && !Superseded(commits, i)
  }

  predicate HasActiveRouted(commits: seq<Commit>, t: TenantId, c: CaseId) {
    exists i :: 0 <= i < |commits| && ActiveRouted(commits, i, t, c)
  }

  function RoutedEntry(t: TenantId, c: CaseId): Entry {
    Entry(t, Some(c), RoutedEvent, System, None, SYSTEM_PROOF, None)
  }

  function ChoiceFor(s: State, t: TenantId, c: CaseId, intent: string): Option<Choice>
    requires c in s.cases
  {
    ComputeRouting(intent, s.cases[c].origin, BodiesOf(s.bodies, t), FallbackOf(s.bodies, t))
  }

  class RoutingService {
    var s: State

    constructor (initial: State)
      ensures s == initial
    {
      s := initial;
    }

    method FindDecision(t: TenantId, c: CaseId) returns (r: Option<Decision>)
      ensures r.None? <==> forall i :: 0 <= i < |s.decisions| ==> !DecisionFor(s.decisions[i], t, c)
      ensures r.Some? ==> r.value in s.decisions && DecisionFor(r.value, t, c)
    {
      r := None;
      for i := 0 to |s.decisions|
        invariant r.None? ==> forall k :: 0 <= k < i ==> !DecisionFor(s.decisions[k], t, c)
        invariant r.Some? ==> r.value in s.decisions && DecisionFor(r.value, t, c)
      {
        if DecisionFor(s.decisions[i], t, c) { r := Some(s.decisions[i]); }
      }
    }

    /** The latest active ROUTED commit of the case. */
    method FindPrevious(t: TenantId, c: CaseId) returns (r: Option<nat>)
      ensures r.None? <==> !HasActiveRouted(s.commits, t, c)
      ensures r.Some? ==> ActiveRouted(s.commits, r.value, t, c)
    {
      r := None;
      for i := 0 to |s.commits|
        invariant r.None? ==> forall k :: 0 <= k < i ==> !ActiveRouted(s.commits, k, t, c)
        invariant r.Some? ==> ActiveRouted(s.commits, r.value, t, c)
      {
        if ActiveRouted(s.commits, i, t, c) { r := Some(i); }
      }
    }

    method Append(e: Entry) returns (r: Option<LedgerError>)
      modifies this
      ensures r == Refusal(old(s).commits, e)
      ensures s == if r.Some? then old(s)
                   else old(s).(commits := old(s).commits + [Commit(old(s).nextTs, e)], nextTs := old(s).nextTs + 1)
    {
      r := Refusal(s.commits, e);
      if r.None? { s := s.(commits := s.commits + [Commit(s.nextTs, e)], nextTs := s.nextTs + 1); }
    }

    /** ROUTED, or ROUTING_SUPERSEDED when an active ROUTED commit is found; the latter never goes
        through, since the SYSTEM proof does not outrank any commit. */
    method CommitRoutingLedger(t: TenantId, c: CaseId) returns (r: Option<LedgerError>)
      modifies this
      ensures r.Some? <==> HasActiveRouted(old(s).commits, t, c)
      ensures r.Some? ==> s == old(s) && r.value in {InsufficientAuthority, EqualAuthority}
      ensures r.None? ==> s == old(s).(commits := old(s).commits + [Commit(old(s).nextTs, RoutedEntry(t, c))],
                                       nextTs := old(s).nextTs + 1)
    {
      var previous := FindPrevious(t, c);
      var isSuperseding := previous.Some?;
      var entry := Entry(t, Some(c), if isSuperseding then RoutingSuperseded else RoutedEvent, System, None,
                         SYSTEM_PROOF, previous);
      if isSuperseding { SupersessionIsStrictEscalation(entry, s.commits[previous.value].entry); }
      r := Append(entry);
    }

    /** An existing decision answers; otherwise the choice is recorded with its ROUTED commit, or the
        transaction throws and leaves nothing behind. */
    method RouteCase(t: TenantId, c: CaseId, intent: string) returns (r: Result<(BodyId, Outcome), RoutingError>)
      modifies this
      ensures r.Failure? ==> s == old(s)
      ensures RouteCaseSpec(old(s), t, c, intent, r, s)
    {
      var snapshot := s;
      if c !in s.cases || s.cases[c].tenantId != t { return Failure(CaseMissing); }
      var existing := FindDecision(t, c);
      if existing.Some? { return Success((existing.value.body, existing.value.outcome)); }
      var choice := ComputeRouting(intent, s.cases[c].origin, BodiesOf(s.bodies, t), FallbackOf(s.bodies, t));
      if choice.None? { return Failure(Unassignable); }
      s := s.(decisions := s.decisions + [Decision(t, c, choice.value.body, choice.value.outcome)]);
      var thrown := CommitRoutingLedger(t, c);
      if thrown.Some? {
        s := snapshot;
        return Failure(LedgerRefused(thrown.value));
      }
      r := Success((choice.value.body, choice.value.outcome));
    }
  }

  /** What a call answers and leaves behind. */
  ghost predicate RouteCaseSpec(s: State, t: TenantId, c: CaseId, intent: string,
                                r: Result<(BodyId, Outcome), RoutingError>, s': State) {
    if c !in s.cases || s.cases[c].tenantId != t then r == Failure(CaseMissing) && s' == s
    else if exists i :: 0 <= i < |s.decisions| && DecisionFor(s.decisions[i], t, c) then
      s' == s && exists d :: d in s.decisions && DecisionFor(d, t, c) && r == Success((d.body, d.outcome))
    else if ChoiceFor(s, t, c, intent).None? then r == Failure(Unassignable) && s' == s
    else if HasActiveRouted(s.commits, t, c) then r.Failure? && r.error.LedgerRefused? && s' == s
    else
      var choice := ChoiceFor(s, t, c, intent).value;
      && r == Success((choice.body, choice.outcome))
      && s' == s.(decisions := s.decisions + [Decision(t, c, choice.body, choice.outcome)],
                  commits := s.commits + [Commit(s.nextTs, RoutedEntry(t, c))], nextTs := s.nextTs + 1)
  }

  /** What any number of calls keeps. */
  ghost predicate Inv(s: State) {
    && (forall i, j :: 0 <= i < j < |s.decisions| ==>
          !(s.decisions[i].tenantId == s.decisions[j].tenantId && s.decisions[i].caseId == s.decisions[j].caseId))
    && (forall i :: 0 <= i < |s.commits| ==> s.commits[i].entry.eventType != RoutingSuperseded)
  }

  /** No call ever appends ROUTING_SUPERSEDED or decides a case twice; whether a first call gets through
      does not depend on the choice but on the ledger: it does iff the case has no active ROUTED commit. */
  lemma {:induction false} CallsKeepInv(s: State, t: TenantId, c: CaseId, intent: string,
                                        r: Result<(BodyId, Outcome), RoutingError>, s': State)
    requires Inv(s) && RouteCaseSpec(s, t, c, intent, r, s')
    ensures Inv(s')
    ensures c in s.cases && s.cases[c].tenantId == t && ChoiceFor(s, t, c, intent).Some?
            && (forall i :: 0 <= i < |s.decisions| ==> !DecisionFor(s.decisions[i], t, c)) ==>
              (r.Success? <==> !HasActiveRouted(s.commits, t, c))
  {
    hide ComputeRouting, HasActiveRouted;
  }

  /** A routing call with its answer, or an entry some other service appends. */
  datatype Event =
    | Call(t: TenantId, c: CaseId, intent: string, answer: Result<(BodyId, Outcome), RoutingError>)
    | Foreign(e: Entry)

  ghost predicate Step(s: State, ev: Event, s': State) {
    match ev
    case Call(t, c, intent, answer) => RouteCaseSpec(s, t, c, intent, answer, s')
    case Foreign(e) =>
      && e.eventType != RoutingSuperseded && Refusal(s.commits, e).None?
      && s' == s.(commits := s.commits + [Commit(s.nextTs, e)], nextTs := s.nextTs + 1)
  }

  /** No run of routing calls between any other ledger traffic ever appends ROUTING_SUPERSEDED, and each
      case is decided at most once. */
  lemma {:induction false} RunsKeepInv(states: seq<State>, events: seq<Event>)
    requires |states| == |events| + 1 && Inv(states[0])
    requires forall i :: 0 <= i < |events| ==> Step(states[i], events[i], states[i + 1])
    ensures forall i :: 0 <= i < |states| ==> Inv(states[i])
  {
    if events != [] {
      var n := |events| - 1;
      RunsKeepInv(states[..n + 1], events[..n]);
      assert Inv(states[..n + 1][n]);
      assert Step(states[n], events[n], states[n + 1]);
      if events[n].Call? {
        CallsKeepInv(states[n], events[n].t, events[n].c, events[n].intent, events[n].answer, states[n + 1]);
      }
      forall i | 0 <= i < |states| ensures Inv(states[i]) {
        if i <= n { assert states[i] == states[..n + 1][i]; }
      }
    }
  }

  /** The case has this decision on record. */
  predicate Decided(s: State, t: TenantId, c: CaseId, body: BodyId, outcome: Outcome) {
    exists d :: d in s.decisions && DecisionFor(d, t, c) && d.body == body && d.outcome == outcome
  }

  lemma {:induction false} StepKeepsDecision(s: State, ev: Event, s': State, t: TenantId, c: CaseId, body: BodyId,
                                             outcome: Outcome)
    requires Step(s, ev, s') && Decided(s, t, c, body, outcome)
    ensures Decided(s', t, c, body, outcome)
  {
    hide ComputeRouting, HasActiveRouted, Refusal;
    assert s.decisions <= s'.decisions;
    var d :| d in s.decisions && DecisionFor(d, t, c) && d.body == body && d.outcome == outcome;
    var i :| 0 <= i < |s.decisions| && s.decisions[i] == d;
    assert s'.decisions[i] == d;
  }

  lemma {:induction false} SuccessDecides(s: State, t: TenantId, c: CaseId, intent: string,
                                          r: Result<(BodyId, Outcome), RoutingError>, s': State)
    requires RouteCaseSpec(s, t, c, intent, r, s') && r.Success?
    ensures Decided(s', t, c, r.value.0, r.value.1)
  {
    hide ComputeRouting, HasActiveRouted;
    if s' != s { assert s'.decisions[|s.decisions|] in s'.decisions; }
  }

  lemma {:induction false} DecidedAnswers(s: State, t: TenantId, c: CaseId, body: BodyId, outcome: Outcome,
                                          intent: string, r: Result<(BodyId, Outcome), RoutingError>, s': State)
    requires Inv(s) && Decided(s, t, c, body, outcome) && RouteCaseSpec(s, t, c, intent, r, s')
    requires c in s.cases && s.cases[c].tenantId == t
    ensures r == Success((body, outcome)) && s' == s
  {
    hide ComputeRouting, HasActiveRouted;
    var d :| d in s.decisions && DecisionFor(d, t, c) && d.body == body && d.outcome == outcome;
    var i :| 0 <= i < |s.decisions| && s.decisions[i] == d;
    assert DecisionFor(s.decisions[i], t, c);
    var e :| e in s.decisions && DecisionFor(e, t, c) && r == Success((e.body, e.outcome));
    var j :| 0 <= j < |s.decisions| && s.decisions[j] == e;
    assert i == j;
  }

  lemma {:induction false} StaysDecided(states: seq<State>, events: seq<Event>, i: nat, j: nat, t: TenantId,
                                        c: CaseId, body: BodyId, outcome: Outcome)
    requires |states| == |events| + 1 && i <= j <= |events|
    requires forall k :: 0 <= k < |events| ==> Step(states[k], events[k], states[k + 1])
    requires Decided(states[i], t, c, body, outcome) && c in states[i].cases && states[i].cases[c].tenantId == t
    ensures Decided(states[j], t, c, body, outcome) && c in states[j].cases && states[j].cases[c].tenantId == t
    decreases j - i
  {
    hide Decided, ComputeRouting, HasActiveRouted, Refusal;
    if i < j {
      StaysDecided(states, events, i, j - 1, t, c, body, outcome);
      assert Step(states[j - 1], events[j - 1], states[j]);
      StepKeepsDecision(states[j - 1], events[j - 1], states[j], t, c, body, outcome);
    }
  }

  /** Once a call for a case has succeeded, every later call for it, for whatever intent and whatever calls
      and other ledger traffic lie between, gives the same answer and changes nothing. */
  lemma {:induction false} RoutingIsIdempotent(states: seq<State>, events: seq<Event>, i: nat, j: nat)
    requires |states| == |events| + 1 && Inv(states[0]) && i < j < |events|
    requires forall k :: 0 <= k < |events| ==> Step(states[k], events[k], states[k + 1])
    requires events[i].Call? && events[j].Call? && events[i].t == events[j].t && events[i].c == events[j].c
    requires events[i].answer.Success?
    ensures events[j].answer == events[i].answer && states[j + 1] == states[j]
  {
    var (t, c, answer) := (events[i].t, events[i].c, events[i].answer.value);
    RunsKeepInv(states, events);
    assert Step(states[i], events[i], states[i + 1]) && Step(states[j], events[j], states[j + 1]);
    SuccessNeedsCase(states[i], t, c, events[i].intent, events[i].answer, states[i + 1]);
    SuccessDecides(states[i], t, c, events[i].intent, events[i].answer, states[i + 1]);
    hide Decided, RouteCaseSpec, Inv;
    StaysDecided(states, events, i + 1, j, t, c, answer.0, answer.1);
    DecidedAnswers(states[j], t, c, answer.0, answer.1, events[j].intent, events[j].answer, states[j + 1]);
  }

  lemma {:induction false} SuccessNeedsCase(s: State, t: TenantId, c: CaseId, intent: string,
                                            r: Result<(BodyId, Outcome), RoutingError>, s': State)
    requires RouteCaseSpec(s, t, c, intent, r, s') && r.Success?
    ensures c in s'.cases && s'.cases[c].tenantId == t
  {
    hide ComputeRouting, HasActiveRouted;
  }

  // ---- What a ROUTED commit of another service does to routing ----

  predicate Undecided(s: State, t: TenantId, c: CaseId) {
    forall i :: 0 <= i < |s.decisions| ==> !DecisionFor(s.decisions[i], t, c)
  }

  /** In every run a call for an undecided, assignable case throws if and only if the case has an active
      ROUTED commit at that moment. */
  lemma {:induction false} CallThrowsIff(states: seq<State>, events: seq<Event>, j: nat)
    requires |states| == |events| + 1 && Inv(states[0]) && j < |events| && events[j].Call?
    requires forall k :: 0 <= k < |events| ==> Step(states[k], events[k], states[k + 1])
    requires Undecided(states[j], events[j].t, events[j].c)
    requires events[j].c in states[j].cases && states[j].cases[events[j].c].tenantId == events[j].t
    requires ChoiceFor(states[j], events[j].t, events[j].c, events[j].intent).Some?
    ensures events[j].answer.Failure? <==> HasActiveRouted(states[j].commits, events[j].t, events[j].c)
  {
    RunsKeepInv(states, events);
    assert Step(states[j], events[j], states[j + 1]);
    CallsKeepInv(states[j], events[j].t, events[j].c, events[j].intent, events[j].answer, states[j + 1]);
    hide Inv, RouteCaseSpec, HasActiveRouted, ChoiceFor;
  }

  /** The event supersedes commit `k`. */
  predicate Supersedes(ev: Event, k: nat) {
    ev.Foreign? && ev.e.supersedes == Some(k)
  }

  lemma {:induction false} StepKeepsRouted(s: State, ev: Event, s': State, k: nat, t: TenantId, c: CaseId)
    requires Step(s, ev, s') && !Supersedes(ev, k) && ActiveRouted(s.commits, k, t, c)
    ensures ActiveRouted(s'.commits, k, t, c)
  {
    hide ComputeRouting, HasActiveRouted, Refusal;
    assert || s'.commits == s.commits
           || exists x: Commit :: x.entry.supersedes != Some(k) && s'.commits == s.commits + [x];
  }

  lemma {:induction false} BlockedCall(s: State, t: TenantId, c: CaseId, intent: string,
                                       r: Result<(BodyId, Outcome), RoutingError>, s': State)
    requires RouteCaseSpec(s, t, c, intent, r, s') && HasActiveRouted(s.commits, t, c) && Undecided(s, t, c)
    ensures r.Failure? && s' == s
  {
    hide ComputeRouting, HasActiveRouted;
  }

  lemma {:induction false} StepKeepsUndecided(s: State, ev: Event, s': State, k: nat, t: TenantId, c: CaseId)
    requires Step(s, ev, s') && ActiveRouted(s.commits, k, t, c) && Undecided(s, t, c)
    ensures Undecided(s', t, c)
  {
    assert HasActiveRouted(s.commits, t, c);
    hide ComputeRouting, HasActiveRouted, Refusal, ActiveRouted;
    if ev.Call? && ev.t == t && ev.c == c { BlockedCall(s, t, c, ev.intent, ev.answer, s'); }
  }

  lemma {:induction false} StaysBlocked(states: seq<State>, events: seq<Event>, i: nat, j: nat, k: nat, t: TenantId,
                                        c: CaseId)
    requires |states| == |events| + 1 && i <= j <= |events|
    requires forall n :: 0 <= n < |events| ==> Step(states[n], events[n], states[n + 1])
    requires ActiveRouted(states[i].commits, k, t, c) && Undecided(states[i], t, c)
    requires forall n :: i <= n < j ==> !Supersedes(events[n], k)
    ensures ActiveRouted(states[j].commits, k, t, c) && Undecided(states[j], t, c)
    decreases j - i
  {
    hide ActiveRouted, Undecided, Step, Supersedes;
    if i < j {
      StaysBlocked(states, events, i, j - 1, k, t, c);
      assert Step(states[j - 1], events[j - 1], states[j]) && !Supersedes(events[j - 1], k);
      StepKeepsRouted(states[j - 1], events[j - 1], states[j], k, t, c);
      StepKeepsUndecided(states[j - 1], events[j - 1], states[j], k, t, c);
    }
  }

  /** Once an undecided case has an active ROUTED commit, by whichever service, every call for it throws and
      changes nothing as long as no entry supersedes that commit. */
  lemma {:induction false} RoutedCommitBlocksRouting(states: seq<State>, events: seq<Event>, i: nat, j: nat, k: nat,
                                                     t: TenantId, c: CaseId)
    requires |states| == |events| + 1 && i <= j < |events|
    requires forall n :: 0 <= n < |events| ==> Step(states[n], events[n], states[n + 1])
    requires ActiveRouted(states[i].commits, k, t, c) && Undecided(states[i], t, c)
    requires forall n :: i <= n < j ==> !Supersedes(events[n], k)
    requires events[j].Call? && events[j].t == t && events[j].c == c
    ensures events[j].answer.Failure? && states[j + 1] == states[j]
  {
    StaysBlocked(states, events, i, j, k, t, c);
    assert Step(states[j], events[j], states[j + 1]);
    assert HasActiveRouted(states[j].commits, t, c);
    hide ActiveRouted, RouteCaseSpec;
    BlockedCall(states[j], t, c, events[j].intent, events[j].answer, states[j + 1]);
  }

  /** A lifecycle transition to ROUTED appends a ROUTED commit of its own. If it comes before the first
      successful routing call, every call from then on throws, until an entry supersedes that commit. */
  lemma {:induction false} TransitionFirstBlocksRouting(states: seq<State>, events: seq<Event>, i: nat, j: nat,
                                                        t: TenantId, c: CaseId)
    requires |states| == |events| + 1 && i < j < |events|
    requires forall n :: 0 <= n < |events| ==> Step(states[n], events[n], states[n + 1])
    requires Undecided(states[i], t, c) && LinksOk(states[i].commits)
    requires events[i].Foreign? && events[i].e.eventType == RoutedEvent
    requires events[i].e.tenantId == t && events[i].e.caseId == Some(c) && events[i].e.supersedes.None?
    requires forall n :: i < n < j ==> !Supersedes(events[n], |states[i].commits|)
    requires events[j].Call? && events[j].t == t && events[j].c == c
    ensures events[j].answer.Failure? && states[j + 1] == states[j]
  {
    assert Step(states[i], events[i], states[i + 1]);
    assert ActiveRouted(states[i + 1].commits, |states[i].commits|, t, c);
    hide ActiveRouted, Supersedes, Step;
    assert Undecided(states[i + 1], t, c);
    RoutedCommitBlocksRouting(states, events, i + 1, j, |states[i].commits|, t, c);
  }

  /** A user can free the case again: an entry of any other type that supersedes a SYSTEM commit is accepted,
      and when that was the one active ROUTED commit of the case none is left. */
  lemma {:induction false} SupersessionFreesRouting(s: State, t: TenantId, c: CaseId, k: nat, u: UserId, proof: string)
    requires ActiveRouted(s.commits, k, t, c) && s.commits[k].entry.actorKind == System && proof != ""
    requires forall i :: 0 <= i < |s.commits| && ActiveRouted(s.commits, i, t, c) ==> i == k
    ensures
      var e := Entry(t, Some(c), CaseUpdated, Human, Some(u), proof, Some(k));
      Refusal(s.commits, e).None? && !HasActiveRouted(s.commits + [Commit(s.nextTs, e)], t, c)
  {
    var e := Entry(t, Some(c), CaseUpdated, Human, Some(u), proof, Some(k));
    var commits := s.commits + [Commit(s.nextTs, e)];
    assert commits[|s.commits|].entry.supersedes == Some(k);
    forall i | 0 <= i < |commits| ensures !ActiveRouted(commits, i, t, c) {
      if i < |s.commits| {
        StillSuperseded(s.commits, Commit(s.nextTs, e), i);
        assert commits[i] == s.commits[i];
        assert i == k ==> Superseded(commits, i);
        assert i != k ==> !ActiveRouted(s.commits, i, t, c);
      }
    }
  }

  lemma {:induction false} StillSuperseded(commits: seq<Commit>, x: Commit, i: nat)
    ensures Superseded(commits, i) ==> Superseded(commits + [x], i)
  {
    if Superseded(commits, i) {
      var j :| 0 <= j < |commits| && commits[j].entry.supersedes == Some(i);
      assert (commits + [x])[j].entry.supersedes == Some(i);
    }
  }

  // ---- The answers, told on the rows ----

  /** Some body of the tenant is capable of the intent. */
  predicate HasCapable(s: State, t: TenantId, id: BodyId, intent: string) {
    exists i :: 0 <= i < |s.bodies| && s.bodies[i].tenantId == t && s.bodies[i].body.id == id
                && intent in s.bodies[i].body.goals
  }

  predicate HasBody(s: State, t: TenantId) {
    exists i :: 0 <= i < |s.bodies| && s.bodies[i].tenantId == t
  }

  predicate IsFallbackBody(s: State, t: TenantId, id: BodyId) {
    exists i :: 0 <= i < |s.bodies| && s.bodies[i].tenantId == t && s.bodies[i].isFallback && s.bodies[i].body.id == id
  }

  lemma {:induction false} BodiesAre(rows: seq<BodyRow>, t: TenantId, b: Body)
    ensures b in BodiesOf(rows, t) <==> exists i :: 0 <= i < |rows| && rows[i].tenantId == t && rows[i].body == b
  {
    if rows != [] {
      var before, n := rows[..|rows| - 1], |rows| - 1;
      BodiesAre(before, t, b);
      assert forall i :: 0 <= i < n ==> rows[i] == before[i];
      assert rows == before + [rows[n]];
    }
  }

  lemma {:induction false} CapableIs(s: State, t: TenantId, id: BodyId, intent: string)
    ensures Capable(BodiesOf(s.bodies, t), id, intent) <==> HasCapable(s, t, id, intent)
  {
    var bs := BodiesOf(s.bodies, t);
    if Capable(bs, id, intent) {
      var b :| b in bs && b.id == id && Supports(b, intent);
      BodiesAre(s.bodies, t, b);
    }
    if HasCapable(s, t, id, intent) {
      var i :| 0 <= i < |s.bodies| && s.bodies[i].tenantId == t && s.bodies[i].body.id == id
               && intent in s.bodies[i].body.goals;
      BodiesAre(s.bodies, t, s.bodies[i].body);
      assert Supports(s.bodies[i].body, intent);
    }
  }

  lemma {:induction false} NoBodies(s: State, t: TenantId)
    ensures BodiesOf(s.bodies, t) == [] <==> !HasBody(s, t)
  {
    var bs := BodiesOf(s.bodies, t);
    if bs != [] { BodiesAre(s.bodies, t, bs[0]); }
    if i :| 0 <= i < |s.bodies| && s.bodies[i].tenantId == t { BodiesAre(s.bodies, t, s.bodies[i].body); }
  }

  /** The choice for a case, over the bodies of its tenant: the capable originator, else the least capable id,
      else the least fallback id with the reason, else none. */
  lemma {:induction false} ChoiceIs(s: State, t: TenantId, c: CaseId, intent: string)
    requires c in s.cases && DistinctIds(BodiesOf(s.bodies, t))
    ensures
      var (r, origin) := (ChoiceFor(s, t, c, intent), s.cases[c].origin);
      if origin.Some? && HasCapable(s, t, origin.value, intent) then
        r == Some(Choice(origin.value, Matched, OriginatorCapable))
      else if exists id :: HasCapable(s, t, id, intent) then
        && r.Some? && r.value == Choice(r.value.body, Matched, MatchedReason) && HasCapable(s, t, r.value.body, intent)
        && forall id :: HasCapable(s, t, id, intent) ==> r.value.body <= id
      else if exists id :: IsFallbackBody(s, t, id) then
        && r.Some? && IsFallbackBody(s, t, r.value.body)
        && (forall id :: IsFallbackBody(s, t, id) ==> r.value.body <= id)
        && r.value == Choice(r.value.body, Fallback, if HasBody(s, t) then FallbackNoMatch else FallbackNoCandidates)
      else r == None
  {
    var bs, fallback := BodiesOf(s.bodies, t), FallbackOf(s.bodies, t);
    RoutingIsRight(intent, s.cases[c].origin, bs, fallback);
    forall id ensures Capable(bs, id, intent) <==> HasCapable(s, t, id, intent) { CapableIs(s, t, id, intent); }
    NoBodies(s, t);
    FallbackIs(s, t);
    hide BodiesOf, FallbackOf, Capable, HasCapable, HasBody, ComputeRouting, IsFallbackBody;
  }

  lemma {:induction false} FallbackIs(s: State, t: TenantId)
    ensures FallbackOf(s.bodies, t).None? <==> forall id :: !IsFallbackBody(s, t, id)
    ensures FallbackOf(s.bodies, t).Some? ==>
              && IsFallbackBody(s, t, FallbackOf(s.bodies, t).value)
              && forall id :: IsFallbackBody(s, t, id) ==> FallbackOf(s.bodies, t).value <= id
  {
    var r := FallbackOf(s.bodies, t);
    assert forall i :: 0 <= i < |s.bodies| ==> s.bodies[i] in s.bodies;
    if r.Some? {
      var b :| b in s.bodies && b.tenantId == t && b.isFallback && b.body.id == r.value;
      var i :| 0 <= i < |s.bodies| && s.bodies[i] == b;
      assert IsFallbackBody(s, t, r.value);
    }
  }

  /** What routing logs: a ROUTED event of the SYSTEM about the case, superseding nothing. */
  lemma {:induction false} RoutedEntryIs(t: TenantId, c: CaseId)
    ensures RoutedEntry(t, c) == Entry(t, Some(c), RoutedEvent, System, None, "system:KHALISTAR", None)
  {
  }
}
