/** Repairing the stored lifecycle from the ledger, case by case and for a whole tenant. */
module Reconciliation {
  import opened Common
  import opened CaseLifecycle
  import opened LifecycleReplay
  import opened GovernanceStore
  import Ledger

  type TenantId = Ledger.TenantId
  type CaseId = Ledger.CaseId

  datatype Report = Report(caseId: CaseId, stored: Lifecycle, derived: Lifecycle, driftDetected: bool, repaired: bool)

  datatype Summary = Summary(totalCases: nat, driftedCases: nat, repairedCases: nat, reports: seq<Report>)

  /** The events of one case in one tenant, in ts order: the ledger is kept in that order. */
  function EventsOf(ledger: seq<Fact>, t: TenantId, c: CaseId): seq<EventType> {
    if ledger == [] then []
    else
      var f := ledger[|ledger| - 1];
      EventsOf(ledger[..|ledger| - 1], t, c) + if f.tenantId == t && f.caseId == c then [f.event] else []
  }

  function Derived(s: Store, t: TenantId, c: CaseId): Lifecycle {
    Replay(EventsOf(s.ledger, t, c))
  }

  predicate Drifted(s: Store, t: TenantId, c: CaseId) {
    CaseIn(s, t, c) && s.cases[c].lifecycle != Derived(s, t, c)
  }

  /** The store after reconciling one case. */
  function Repaired(s: Store, t: TenantId, c: CaseId): Store
    requires CaseIn(s, t, c)
  {
    if !Drifted(s, t, c) then s
    else Log(s.(cases := s.cases[c := s.cases[c].(lifecycle := Derived(s, t, c))]), t, c, LifecycleRepaired)
  }

  lemma {:induction false} EventsSnoc(ledger: seq<Fact>, f: Fact, t: TenantId, c: CaseId)
    ensures EventsOf(ledger + [f], t, c)
            == EventsOf(ledger, t, c) + if f.tenantId == t && f.caseId == c then [f.event] else []
  {
    assert (ledger + [f])[..|ledger|] == ledger;
  }

  /** A repair event describes the correction and is ignored by the next replay. */
  lemma {:induction false} RepairKeepsReplay(s: Store, t: TenantId, c: CaseId, u: TenantId, d: CaseId)
    requires CaseIn(s, t, c)
    ensures Derived(Repaired(s, t, c), u, d) == Derived(s, u, d)
    ensures !Drifted(Repaired(s, t, c), t, c)
  {
    RepairIsSilent(s.ledger, t, c, u, d);
    RepairIsSilent(s.ledger, t, c, t, c);
    hide Replay, EventsOf;
  }

  lemma {:induction false} RepairIsSilent(ledger: seq<Fact>, t: TenantId, c: CaseId, u: TenantId, d: CaseId)
    ensures Replay(EventsOf(ledger + [Fact(t, c, LifecycleRepaired)], u, d)) == Replay(EventsOf(ledger, u, d))
  {
    var events := EventsOf(ledger, u, d);
    assert Denotes(LifecycleRepaired).None?;
    hide Replay, EventsOf, Denotes;
    EventsSnoc(ledger, Fact(t, c, LifecycleRepaired), u, d);
    if t == u && c == d {
      ReplayAppend(events, LifecycleRepaired);
    } else {
      assert events + [] == events;
    }
  }

  /** A whole pass over the listed cases. */
  function Sweep(s: Store, t: TenantId, cases: seq<CaseId>): Store
    requires forall c :: c in cases ==> CaseIn(s, t, c)
    ensures forall c, u :: CaseIn(Sweep(s, t, cases), u, c) <==> CaseIn(s, u, c)
    decreases |cases|
  {
    if cases == [] then s
    else
      assert cases[|cases| - 1] in cases;
      Repaired(Sweep(s, t, cases[..|cases| - 1]), t, cases[|cases| - 1])
  }

  function DriftCount(s: Store, t: TenantId, cases: seq<CaseId>): nat {
    if cases == [] then 0
    else DriftCount(s, t, cases[..|cases| - 1]) + if Drifted(s, t, cases[|cases| - 1]) then 1 else 0
  }

  predicate Distinct(cases: seq<CaseId>) {
    forall i, j :: 0 <= i < j < |cases| ==> cases[i] != cases[j]
  }

  /** The repairs one pass records, in order. */
  function RepairCommits(s: Store, t: TenantId, cases: seq<CaseId>): seq<Fact> {
    if cases == [] then []
    else RepairCommits(s, t, cases[..|cases| - 1])
         + if Drifted(s, t, cases[|cases| - 1]) then [Fact(t, cases[|cases| - 1], LifecycleRepaired)] else []
  }

  /** Listed rows hold what replay derives, all other rows are untouched. */
  predicate SweptRows(s: Store, s': Store, t: TenantId, cases: seq<CaseId>) {
    && s' == s.(cases := s'.cases, ledger := s'.ledger) && s'.cases.Keys == s.cases.Keys
    && (forall c :: c in cases && c in s.cases ==> s'.cases[c] == s.cases[c].(lifecycle := Derived(s, t, c)))
    && (forall c :: c in s.cases && c !in cases ==> s'.cases[c] == s.cases[c])
  }

  ghost predicate SameReplay(s: Store, s': Store) {
    forall u, d :: Derived(s', u, d) == Derived(s, u, d)
  }

  /** `s'` is `s` after repairing `cases`. */
  ghost predicate Swept(s: Store, s': Store, t: TenantId, cases: seq<CaseId>) {
    SweptRows(s, s', t, cases) && SameReplay(s, s') && s'.ledger == s.ledger + RepairCommits(s, t, cases)
  }

  lemma {:induction false} RepairCommitsSnoc(s: Store, t: TenantId, done: seq<CaseId>, c: CaseId)
    ensures RepairCommits(s, t, done + [c])
            == RepairCommits(s, t, done) + if Drifted(s, t, c) then [Fact(t, c, LifecycleRepaired)] else []
  {
    assert (done + [c])[..|done|] == done;
    hide Drifted;
  }

  lemma {:induction false} SweptOneMore(s: Store, mid: Store, t: TenantId, done: seq<CaseId>, c: CaseId)
    requires Swept(s, mid, t, done) && CaseIn(s, t, c) && CaseIn(mid, t, c) && c !in done
    ensures Swept(s, Repaired(mid, t, c), t, done + [c])
  {
    var s' := Repaired(mid, t, c);
    assert mid.cases[c] == s.cases[c];
    assert SameReplay(s, s') && Derived(mid, t, c) == Derived(s, t, c) by {
      hide Derived, Repaired, SweptRows;
      forall u, d ensures Derived(s', u, d) == Derived(s, u, d) { RepairKeepsReplay(mid, t, c, u, d); }
    }
    hide Derived, RepairCommits, Repaired, SameReplay, SweptRows;
    RepairedRows(mid, t, c);
    RowsOneMore(s, mid, s', t, done, c);
    SweptLedger(s, mid, t, done, c);
  }

  lemma {:induction false} RowsOneMore(s: Store, mid: Store, s': Store, t: TenantId, done: seq<CaseId>, c: CaseId)
    requires SweptRows(s, mid, t, done) && c in s.cases && c !in done
    requires s' == mid.(cases := s'.cases, ledger := s'.ledger)
    requires s'.cases == mid.cases[c := mid.cases[c].(lifecycle := Derived(s, t, c))]
    ensures SweptRows(s, s', t, done + [c])
  {
    hide Derived;
    assert forall d :: d in done + [c] <==> d in done || d == c;
  }

  lemma {:induction false} RepairedRows(s: Store, t: TenantId, c: CaseId)
    requires CaseIn(s, t, c)
    ensures Repaired(s, t, c) == s.(cases := Repaired(s, t, c).cases, ledger := Repaired(s, t, c).ledger)
    ensures Repaired(s, t, c).cases == s.cases[c := s.cases[c].(lifecycle := Derived(s, t, c))]
  {
    hide Derived;
    if !Drifted(s, t, c) { assert s.cases[c := s.cases[c].(lifecycle := Derived(s, t, c))] == s.cases; }
  }

  lemma {:induction false} SweptLedger(s: Store, mid: Store, t: TenantId, done: seq<CaseId>, c: CaseId)
    requires CaseIn(s, t, c) && CaseIn(mid, t, c) && mid.cases[c] == s.cases[c]
        && Derived(mid, t, c) == Derived(s, t, c)
    requires mid.ledger == s.ledger + RepairCommits(s, t, done)
    ensures Repaired(mid, t, c).ledger == s.ledger + RepairCommits(s, t, done + [c])
  {
    hide Derived, RepairCommits;
    RepairCommitsSnoc(s, t, done, c);
    assert s.ledger + RepairCommits(s, t, done) + [] == s.ledger + (RepairCommits(s, t, done) + []);
  }

  /** After a pass: listed cases hold what replay derives, all other rows are untouched, the ledger has
      gained exactly one repair for each case that had drifted, and replay derives what it did before. */
  lemma {:induction false} SweepRepairs(s: Store, t: TenantId, cases: seq<CaseId>)
    requires Distinct(cases) && forall c :: c in cases ==> CaseIn(s, t, c)
    ensures Swept(s, Sweep(s, t, cases), t, cases)
    decreases |cases|
  {
    if cases != [] {
      var init, last := cases[..|cases| - 1], cases[|cases| - 1];
      assert cases == init + [last] && last !in init && last in cases;
      SweepRepairs(s, t, init);
      assert CaseIn(Sweep(s, t, init), t, last);
      hide Swept, Repaired;
      SweptOneMore(s, Sweep(s, t, init), t, init, last);
    } else {
      assert s.ledger + RepairCommits(s, t, cases) == s.ledger;
    }
  }

  lemma {:induction false} NothingToRepair(s: Store, t: TenantId, cases: seq<CaseId>)
    requires forall c :: c in cases ==> CaseIn(s, t, c) && !Drifted(s, t, c)
    ensures Sweep(s, t, cases) == s && DriftCount(s, t, cases) == 0 && RepairCommits(s, t, cases) == []
    decreases |cases|
  {
    if cases != [] {
      assert cases[|cases| - 1] in cases;
      NothingToRepair(s, t, cases[..|cases| - 1]);
      hide Drifted;
    }
  }

  /** The second of two passes changes nothing and finds nothing. */
  lemma {:induction false} SweepIsIdempotent(s: Store, t: TenantId, cases: seq<CaseId>)
    requires Distinct(cases) && forall c :: c in cases ==> CaseIn(s, t, c)
    ensures
      var s' := Sweep(s, t, cases);
      Sweep(s', t, cases) == s' && DriftCount(s', t, cases) == 0
  {
    SweepRepairs(s, t, cases);
    var s' := Sweep(s, t, cases);
    forall c | c in cases ensures CaseIn(s', t, c) && !Drifted(s', t, c) {
      assert Derived(s', t, c) == Derived(s, t, c);
    }
    hide Derived;
    NothingToRepair(s', t, cases);
  }

  /** Each case gains at most one commit, and only cases that had drifted gain one. */
  lemma {:induction false} OneRepairPerCase(s: Store, t: TenantId, cases: seq<CaseId>, u: TenantId, c: CaseId)
    requires Distinct(cases)
    ensures EventsOf(RepairCommits(s, t, cases), u, c) ==
            if u == t && c in cases && Drifted(s, t, c) then [LifecycleRepaired] else []
    decreases |cases|
  {
    if cases != [] {
      var init, last := cases[..|cases| - 1], cases[|cases| - 1];
      assert cases == init + [last] && last !in init;
      OneRepairPerCase(s, t, init, u, c);
      EventsSnoc(RepairCommits(s, t, init), Fact(t, last, LifecycleRepaired), u, c);
      hide Drifted;
      assert !Drifted(s, t, last) ==> RepairCommits(s, t, cases) == RepairCommits(s, t, init);
    }
  }

  function ReportOn(s: Store, t: TenantId, c: CaseId): Report
    requires CaseIn(s, t, c)
  {
    Report(c, s.cases[c].lifecycle, Derived(s, t, c), Drifted(s, t, c), Drifted(s, t, c))
  }

  /** The report compares the row before the repair with what its ledger says. */
  lemma {:induction false} ReportIs(s: Store, t: TenantId, c: CaseId)
    requires CaseIn(s, t, c)
    ensures
      var drift := s.cases[c].lifecycle != Replay(EventsOf(s.ledger, t, c));
      ReportOn(s, t, c) == Report(c, s.cases[c].lifecycle, Replay(EventsOf(s.ledger, t, c)), drift, drift)
    ensures
      if s.cases[c].lifecycle != Replay(EventsOf(s.ledger, t, c)) then
        Repaired(s, t, c) == s.(cases := s.cases[c := s.cases[c].(lifecycle := Replay(EventsOf(s.ledger, t, c)))],
                                ledger := s.ledger + [Fact(t, c, LifecycleRepaired)])
      else Repaired(s, t, c) == s
  {
    hide Replay, EventsOf;
  }

  /** A case's events are those recorded for it in its tenant, in ledger order. */
  lemma {:induction false} EventsAre(ledger: seq<Fact>, t: TenantId, c: CaseId)
    ensures |EventsOf(ledger, t, c)| == |Places(ledger, (f: Fact) => f.tenantId == t && f.caseId == c)|
    ensures EventsOf([], t, c) == []
    ensures forall f: Fact ::
              EventsOf(ledger + [f], t, c)
              == EventsOf(ledger, t, c) + if f.tenantId == t && f.caseId == c then [f.event] else []
  {
    forall f: Fact
      ensures EventsOf(ledger + [f], t, c)
              == EventsOf(ledger, t, c) + if f.tenantId == t && f.caseId == c then [f.event] else []
    {
      EventsSnoc(ledger, f, t, c);
    }
    EventsCounted(ledger, t, c);
  }

  lemma {:induction false} EventsCounted(ledger: seq<Fact>, t: TenantId, c: CaseId)
    ensures |EventsOf(ledger, t, c)| == |Places(ledger, (f: Fact) => f.tenantId == t && f.caseId == c)|
  {
    var p := (f: Fact) => f.tenantId == t && f.caseId == c;
    if ledger == [] {
      assert Places(ledger, p) == {};
    } else {
      var init, last := ledger[..|ledger| - 1], ledger[|ledger| - 1];
      EventsCounted(init, t, c);
      assert ledger == init + [last];
      PlacesSnoc(init, last, p);
    }
  }

  /** In the middle of a pass the next case still looks as it did at the start. */
  lemma {:induction false} NextCaseUntouched(s: Store, t: TenantId, done: seq<CaseId>, c: CaseId)
    requires Distinct(done) && (forall d :: d in done ==> CaseIn(s, t, d)) && CaseIn(s, t, c) && c !in done
    ensures CaseIn(Sweep(s, t, done), t, c) && ReportOn(Sweep(s, t, done), t, c) == ReportOn(s, t, c)
  {
    SweepRepairs(s, t, done);
    hide Replay, Sweep;
  }

  lemma {:induction false} NothingDriftsAfter(s: Store, t: TenantId, listed: seq<CaseId>)
    requires Distinct(listed) && forall c :: c in listed <==> CaseIn(s, t, c)
    ensures forall c :: CaseIn(s, t, c) ==> !Drifted(Sweep(s, t, listed), t, c)
  {
    SweepRepairs(s, t, listed);
    hide Replay, Sweep;
  }

  class Database {
    var store: Store

    constructor (s: Store)
      ensures store == s
    {
      store := s;
    }

    method LedgerEvents(t: TenantId, c: CaseId) returns (events: seq<EventType>)
      ensures events == EventsOf(store.ledger, t, c)
    {
      events := [];
      var ledger := store.ledger;
      for i := 0 to |ledger|
        invariant events == EventsOf(ledger[..i], t, c)
      {
        assert ledger[..i + 1][..i] == ledger[..i];
        if ledger[i].tenantId == t && ledger[i].caseId == c { events := events + [ledger[i].event]; }
      }
      assert ledger[..|ledger|] == ledger;
    }

    method ReconcileCaseLifecycle(t: TenantId, c: CaseId) returns (r: Option<Report>)
      modifies this
      ensures !CaseIn(old(store), t, c) ==> r.None? && store == old(store)
      ensures CaseIn(old(store), t, c) ==>
                && store == Repaired(old(store), t, c)
                && r == Some(ReportOn(old(store), t, c))
    {
      if c !in store.cases || store.cases[c].tenantId != t { return None; }
      var events := LedgerEvents(t, c);
      var derived := DeriveLifecycleFromLedger(events);
      var stored := store.cases[c].lifecycle;
      if stored == derived { return Some(Report(c, stored, derived, false, false)); }
      store := store.(cases := store.cases[c := store.cases[c].(lifecycle := derived)]);
      store := store.(ledger := store.ledger + [Fact(t, c, LifecycleRepaired)]);
      r := Some(Report(c, stored, derived, true, true));
    }

    /** `listed` is the tenant's case list as the database returns it. */
    method Run(t: TenantId, listed: seq<CaseId>) returns (r: Summary)
      requires Distinct(listed) && forall c :: c in listed <==> CaseIn(store, t, c)
      modifies this
      ensures forall c :: c in listed ==> CaseIn(old(store), t, c)
      ensures store == Sweep(old(store), t, listed)
      ensures r.totalCases == |listed| == |r.reports|
      ensures forall i :: 0 <= i < |listed| ==> r.reports[i] == ReportOn(old(store), t, listed[i])
      ensures r.driftedCases == r.repairedCases == DriftCount(old(store), t, listed)
      ensures forall c :: CaseIn(store, t, c) ==> !Drifted(store, t, c)
    {
      var reports: seq<Report> := [];
      var driftedCases, repairedCases := 0, 0;
      ghost var before := store;
      hide Drifted, Derived, Repaired;
      for i := 0 to |listed|
        invariant store == Sweep(before, t, listed[..i])
        invariant |reports| == i
        invariant forall k :: 0 <= k < i ==> reports[k] == ReportOn(before, t, listed[k])
        invariant driftedCases == repairedCases == DriftCount(before, t, listed[..i])
      {
        var done := listed[..i];
        assert listed[..i + 1][..i] == done && listed[i] in listed && listed[i] !in done;
        NextCaseUntouched(before, t, done, listed[i]);
        var result := ReconcileCaseLifecycle(t, listed[i]);
        reports := reports + [result.value];
        if result.value.driftDetected { driftedCases := driftedCases + 1; }
        if result.value.repaired { repairedCases := repairedCases + 1; }
      }
      assert listed[..|listed|] == listed;
      NothingDriftsAfter(before, t, listed);
      r := Summary(|listed|, driftedCases, repairedCases, reports);
    }
  }

  /** The drift count is the number of listed cases that drift. */
  lemma {:induction false} DriftsAreCounted(s: Store, t: TenantId, cases: seq<CaseId>)
    ensures DriftCount(s, t, cases) == |set i: nat | i < |cases| && Drifted(s, t, cases[i])|
  {
    hide Drifted;
    var now := set i: nat | i < |cases| && Drifted(s, t, cases[i]);
    if cases == [] {
      assert now == {};
    } else {
      var init, n := cases[..|cases| - 1], |cases| - 1;
      DriftsAreCounted(s, t, init);
      var before := set i: nat | i < |init| && Drifted(s, t, init[i]);
      assert now == if Drifted(s, t, cases[n]) then before + {n} else before;
    }
  }
}
