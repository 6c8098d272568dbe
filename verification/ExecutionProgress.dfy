/** Milestones of an execution: weighted completion, the derived view, and when the two agree. */
module ExecutionProgress {
  import opened Common
  import opened CaseLifecycle

  datatype Status = Created | InProgress | Blocked | Finished | Aborted

  datatype Milestone = Milestone(weight: int, completed: bool)

  datatype Execution = Execution(tenantId: nat, status: Status, milestones: seq<Milestone>)

  function TotalWeight(ms: seq<Milestone>): int {
    if ms == [] then 0 else TotalWeight(ms[..|ms| - 1]) + ms[|ms| - 1].weight
  }

  function CompletedWeight(ms: seq<Milestone>): int {
    if ms == [] then 0
    else CompletedWeight(ms[..|ms| - 1]) + if ms[|ms| - 1].completed then ms[|ms| - 1].weight else 0
  }

  predicate PositiveWeights(ms: seq<Milestone>) {
    forall i :: 0 <= i < |ms| ==> ms[i].weight > 0
  }

  predicate AllCompleted(ms: seq<Milestone>) {
    forall i :: 0 <= i < |ms| ==> ms[i].completed
  }

  /** The two reductions of the source, each one pass over the rows. */
  method SumWeights(ms: seq<Milestone>) returns (total: int, completed: int)
    ensures total == TotalWeight(ms) && completed == CompletedWeight(ms)
  {
    total, completed := 0, 0;
    for i := 0 to |ms|
      invariant total == TotalWeight(ms[..i]) && completed == CompletedWeight(ms[..i])
    {
      assert ms[..i + 1][..i] == ms[..i];
      total := total + ms[i].weight;
      if ms[i].completed { completed := completed + ms[i].weight; }
    }
    assert ms[..|ms|] == ms;
  }

  /** With positive weights the completed weight is complete exactly when every milestone is. */
  lemma {:induction false} WeightsDecide(ms: seq<Milestone>)
    requires PositiveWeights(ms)
    ensures 0 <= CompletedWeight(ms) <= TotalWeight(ms)
    ensures CompletedWeight(ms) == TotalWeight(ms) <==> AllCompleted(ms)
    ensures TotalWeight(ms) > 0 <==> ms != []
  {
    if ms != [] {
      var init := ms[..|ms| - 1];
      WeightsDecide(init);
      assert AllCompleted(ms) <==> AllCompleted(init) && ms[|ms| - 1].completed by {
        assert ms == init + [ms[|ms| - 1]];
      }
    }
  }

  // ---- Completing milestones ----

  function Mark(e: Execution, i: nat): Execution
    requires i < |e.milestones|
  {
    e.(milestones := e.milestones[i := e.milestones[i].(completed := true)])
  }

  /** A call for milestone `i`: the new rows and the ledger events appended, None when it throws. */
  function Complete(e: Execution, i: nat): Option<(Execution, seq<EventType>)> {
    if i >= |e.milestones| then None
    else if e.milestones[i].completed then Some((e, []))
    else if e.status != InProgress then None
    else
      var marked := Mark(e, i);
      if TotalWeight(marked.milestones) > 0 && CompletedWeight(marked.milestones) == TotalWeight(marked.milestones)
      then Some((marked.(status := Finished), [ExecutionProgressRecorded, ExecutionCompleted]))
      else Some((marked, [ExecutionProgressRecorded]))
  }

  /** Whatever the weights: a fresh completion closes the execution exactly if some weight is there and all of it
      is done; with none it stays open even when every milestone is completed. */
  lemma {:induction false} WeightlessStaysOpen(e: Execution, i: nat)
    requires i < |e.milestones| && !e.milestones[i].completed && e.status == InProgress
    ensures Complete(e, i).Some?
    ensures
      var (r, ms) := (Complete(e, i).value.0, e.milestones[i := Milestone(e.milestones[i].weight, true)]);
      && r.milestones == ms
      && (r.status == Finished <==> TotalWeight(ms) >= 1 && CompletedWeight(ms) == TotalWeight(ms))
      && ((forall k :: 0 <= k < |ms| ==> ms[k].weight == 0) ==> r.status == InProgress)
  {
    var ms := e.milestones[i := Milestone(e.milestones[i].weight, true)];
    assert Mark(e, i).milestones == ms;
    if forall k :: 0 <= k < |ms| ==> ms[k].weight == 0 { NoWeight(ms); }
    hide TotalWeight, CompletedWeight;
  }

  lemma {:induction false} NoWeight(ms: seq<Milestone>)
    requires forall k :: 0 <= k < |ms| ==> ms[k].weight == 0
    ensures TotalWeight(ms) == 0
  {
    if ms != [] { NoWeight(ms[..|ms| - 1]); }
  }

  /** Any sequence of completions, in any order, with repeats; a throwing call changes nothing. */
  function CompleteAll(e: Execution, calls: seq<nat>): (Execution, seq<EventType>) {
    if calls == [] then (e, []) else AfterCall(CompleteAll(e, calls[..|calls| - 1]), calls[|calls| - 1])
  }

  function AfterCall(before: (Execution, seq<EventType>), i: nat): (Execution, seq<EventType>) {
    var step := Complete(before.0, i);
    if step.None? then before else (step.value.0, before.1 + step.value.1)
  }

  function Count(events: seq<EventType>, e: EventType): nat {
    multiset(events)[e]
  }

  function CompletedCount(ms: seq<Milestone>): nat {
    |set i | 0 <= i < |ms| && ms[i].completed|
  }

  /** A freshly started execution: open, nothing completed, at least one milestone. */
  predicate Fresh(e: Execution) {
    e.status == InProgress && e.milestones != [] && PositiveWeights(e.milestones)
    && forall i :: 0 <= i < |e.milestones| ==> !e.milestones[i].completed
  }

  /** What every sequence of completions keeps. */
  predicate Progress(e: Execution, events: seq<EventType>) {
    && e.milestones != [] && PositiveWeights(e.milestones)
    && (e.status == InProgress || e.status == Finished)
    && (e.status == Finished <==> AllCompleted(e.milestones))
    && Count(events, ExecutionProgressRecorded) == CompletedCount(e.milestones)
    && Count(events, ExecutionCompleted) == (if e.status == Finished then 1 else 0)
  }

  lemma {:induction false} MarkOne(e: Execution, i: nat)
    requires i < |e.milestones| && !e.milestones[i].completed && PositiveWeights(e.milestones)
    ensures PositiveWeights(Mark(e, i).milestones)
    ensures CompletedCount(Mark(e, i).milestones) == CompletedCount(e.milestones) + 1
  {
    var ms, ms' := e.milestones, Mark(e, i).milestones;
    var done, done' := set k | 0 <= k < |ms| && ms[k].completed, set k | 0 <= k < |ms'| && ms'[k].completed;
    assert done' == done + {i};
  }

  lemma {:induction false} CompleteKeepsProgress(e: Execution, events: seq<EventType>, i: nat)
    requires Progress(e, events) && i < |e.milestones|
    ensures Complete(e, i).Some?
    ensures Progress(Complete(e, i).value.0, events + Complete(e, i).value.1)
  {
    if !e.milestones[i].completed {
      assert !AllCompleted(e.milestones);
      MarkOne(e, i);
      WeightsDecide(Mark(e, i).milestones);
      var new_ := Complete(e, i).value.1;
      assert multiset(events + new_) == multiset(events) + multiset(new_);
    } else {
      assert events + [] == events;
    }
  }

  /** `r` is `e` after completing exactly the milestones named in `calls`. */
  predicate Reached(e: Execution, calls: seq<nat>, r: (Execution, seq<EventType>)) {
    && Progress(r.0, r.1) && |r.0.milestones| == |e.milestones|
    && (forall i :: 0 <= i < |e.milestones| ==>
          (r.0.milestones[i].completed <==> i in calls) && r.0.milestones[i].weight == e.milestones[i].weight)
  }

  /** The execution closes exactly with its last milestone; no call of such a run throws, each milestone
      leaves one progress event whatever the order and the repeats, and completion is recorded once. */
  lemma {:induction false} MilestoneRuns(e: Execution, calls: seq<nat>)
    requires Fresh(e) && forall i :: i in calls ==> i < |e.milestones|
    ensures Reached(e, calls, CompleteAll(e, calls))
    decreases |calls|
  {
    hide AfterCall, Reached;
    if calls == [] {
      NothingCompleted(e);
    } else {
      var init, last := calls[..|calls| - 1], calls[|calls| - 1];
      assert calls == init + [last];
      assert last in calls && forall i :: i in init ==> i in calls;
      MilestoneRuns(e, init);
      OneMoreCall(e, init, CompleteAll(e, init), last);
    }
  }

  lemma {:induction false} NothingCompleted(e: Execution)
    requires Fresh(e)
    ensures Reached(e, [], (e, []))
  {
    assert (set k | 0 <= k < |e.milestones| && e.milestones[k].completed) == {};
    assert !e.milestones[0].completed;
  }

  lemma {:induction false} OneMoreCall(e: Execution, calls: seq<nat>, before: (Execution, seq<EventType>), i: nat)
    requires Reached(e, calls, before) && i < |e.milestones|
    ensures Reached(e, calls + [i], AfterCall(before, i))
  {
    CompleteKeepsProgress(before.0, before.1, i);
    hide Progress, TotalWeight, CompletedWeight;
    assert forall k :: k in calls + [i] <==> k in calls || k == i;
  }

  // ---- The derived view ----

  /** Math.round(100 * completed / total) in exact arithmetic: halves round up. */
  function Percent(completed: int, total: int): int
    requires total >= 0
  {
    if total == 0 then 0 else (200 * completed + total) / (2 * total)
  }

  function DerivedStatus(ms: seq<Milestone>): Status
    requires TotalWeight(ms) >= 0
  {
    if Percent(CompletedWeight(ms), TotalWeight(ms)) == 100 && TotalWeight(ms) > 0 then Finished else InProgress
  }

  lemma {:induction false} DivAtLeast(n: int, d: int, k: int)
    requires d > 0
    ensures n / d >= k <==> n >= d * k
  {
    var q := n / d;
    assert n == d * q + n % d;
    if q >= k { MulMonotone(d, k, q); } else { MulMonotone(d, q + 1, k); }
  }

  lemma {:induction false} MulMonotone(d: int, a: int, b: int)
    requires d > 0 && a <= b
    ensures d * a <= d * b
  {
  }

  lemma {:induction false} PercentBounds(c: int, total: int)
    requires 0 <= c <= total && total > 0
    ensures 0 <= Percent(c, total) <= 100
    ensures Percent(c, total) == 100 <==> 200 * c >= 199 * total
  {
    DivAtLeast(200 * c + total, 2 * total, 0);
    DivAtLeast(200 * c + total, 2 * total, 100);
    DivAtLeast(200 * c + total, 2 * total, 101);
  }

  /** The percentage is the whole number nearest to the share of the weight done, halves upwards, 0 without weight. */
  lemma {:induction false} PercentIsNearest(c: int, total: int)
    requires total >= 0
    ensures total == 0 ==> Percent(c, total) == 0
    ensures total > 0 ==>
              var share := 100.0 * c as real / total as real;
              -0.5 <= share - Percent(c, total) as real < 0.5
  {
    if total > 0 {
      var n, d := 200 * c + total, 2 * total;
      var p := n / d;
      assert n == d * p + n % d;
      var share := 100.0 * c as real / total as real;
      assert share * total as real == 100.0 * c as real;
      ShareBounds(share, c, p, total);
    }
  }

  lemma {:induction false} ShareBounds(share: real, c: int, p: int, total: int)
    requires total > 0 && share * total as real == 100.0 * c as real
    requires 2 * total * p <= 200 * c + total < 2 * total * p + 2 * total
    ensures -0.5 <= share - p as real < 0.5
  {
    var t := total as real;
    assert (share - p as real) * t == 100.0 * c as real - p as real * t;
    assert (2 * total * p) as real == 2.0 * t * p as real;
    Scaled(share - p as real, t, -0.5);
    Scaled(0.5, t, share - p as real);
    if share - p as real >= 0.5 {
      ScaledUp(share - p as real, t);
    }
  }

  lemma {:induction false} Scaled(x: real, t: real, y: real)
    requires t > 0.0
    ensures x * t >= y * t ==> x >= y
  {
    if x < y { ProductOfPositives(y - x, t); }
  }

  lemma {:induction false} ScaledUp(x: real, t: real)
    requires t > 0.0 && x >= 0.5
    ensures x * t >= 0.5 * t
  {
    if x > 0.5 { ProductOfPositives(x - 0.5, t); }
  }

  lemma {:induction false} ProductOfPositives(x: real, t: real)
    requires x > 0.0 && t > 0.0
    ensures x * t > 0.0
  {
  }

  lemma {:induction false} PercentMonotone(c: int, c': int, total: int)
    requires 0 <= c <= c' <= total && total > 0
    ensures Percent(c, total) <= Percent(c', total)
  {
    DivAtLeast(200 * c + total, 2 * total, Percent(c, total));
    DivAtLeast(200 * c' + total, 2 * total, Percent(c, total));
  }

  /** Completing one more milestone never lowers the percentage, which stays between 0 and 100. */
  lemma {:induction false} PercentGrows(e: Execution, i: nat)
    requires i < |e.milestones| && PositiveWeights(e.milestones)
    ensures PositiveWeights(Mark(e, i).milestones)
    ensures TotalWeight(Mark(e, i).milestones) == TotalWeight(e.milestones) > 0
    ensures 0 <= Percent(CompletedWeight(e.milestones), TotalWeight(e.milestones))
              <= Percent(CompletedWeight(Mark(e, i).milestones), TotalWeight(e.milestones)) <= 100
  {
    MarkGrows(e.milestones, i);
    WeightsDecide(e.milestones);
    WeightsDecide(Mark(e, i).milestones);
    var c, c', total := CompletedWeight(e.milestones), CompletedWeight(Mark(e, i).milestones),
      TotalWeight(e.milestones);
    PercentBounds(c, total);
    PercentBounds(c', total);
    PercentMonotone(c, c', total);
  }

  lemma {:induction false} MarkGrows(ms: seq<Milestone>, i: nat)
    requires i < |ms| && PositiveWeights(ms)
    ensures TotalWeight(ms[i := ms[i].(completed := true)]) == TotalWeight(ms)
    ensures CompletedWeight(ms) <= CompletedWeight(ms[i := ms[i].(completed := true)])
  {
    var ms' := ms[i := ms[i].(completed := true)];
    if i < |ms| - 1 {
      assert ms'[..|ms| - 1] == ms[..|ms| - 1][i := ms[i].(completed := true)];
      MarkGrows(ms[..|ms| - 1], i);
    } else {
      assert ms'[..|ms| - 1] == ms[..|ms| - 1];
    }
  }

  /** The view says "completed" for an unfinished execution exactly when at least 99.5 % but not all of
      the weight is done, which needs a total weight of 200 or more. */
  lemma {:induction false} DerivedStatusAgrees(ms: seq<Milestone>)
    requires ms != [] && PositiveWeights(ms)
    ensures TotalWeight(ms) >= 0
    ensures (DerivedStatus(ms) == Finished <==> AllCompleted(ms)) <==>
            !(200 * CompletedWeight(ms) >= 199 * TotalWeight(ms) && CompletedWeight(ms) < TotalWeight(ms))
    ensures TotalWeight(ms) < 200 ==> (DerivedStatus(ms) == Finished <==> AllCompleted(ms))
  {
    WeightsDecide(ms);
    PercentBounds(CompletedWeight(ms), TotalWeight(ms));
  }

  /** At a total of 200 the view and the milestones do disagree. */
  lemma {:induction false} RoundingHidesTheLastMilestone() returns (ms: seq<Milestone>)
    ensures PositiveWeights(ms) && TotalWeight(ms) == 200 && !AllCompleted(ms) && DerivedStatus(ms) == Finished
  {
    ms := [Milestone(199, true), Milestone(1, false)];
    assert ms[..1] == [Milestone(199, true)] && ms[..1][..0] == [];
    assert CompletedWeight(ms) == 199;
  }

  /** The three milestones every execution is seeded with: no rounding gap. */
  const SEEDED: seq<Milestone> := [Milestone(2, false), Milestone(1, false), Milestone(2, false)]
}
