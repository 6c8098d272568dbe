/** The offline intake queue: enqueues, overlapping sync ticks and requeues in any interleaving.

    Between two awaits a tick runs undisturbed, so each operation below is one such stretch of code. */
module OfflineQueue {
  import opened Common

  datatype Item = Item(tenantId: nat, beneficiaryId: nat, message: string)

  /** A running tick: the items of its snapshot not yet finished, and whether the first of them has
      passed intake and awaits routing. */
  datatype Tick = Tick(remaining: seq<Item>, routing: bool)

  /** The multisets record what happened; the service itself only has the queue and its running ticks. */
  datatype State = State(
    queue: seq<Item>,
    ticks: seq<Tick>,
    enqueued: multiset<Item>,
    synced: multiset<Item>,
    intakes: multiset<Item>,        // completed handleIntake calls
    lateFailures: multiset<Item>    // failures after intake had completed
  )

  const IDLE := State([], [], multiset{}, multiset{}, multiset{}, multiset{})

  datatype Step =
    | Enqueue(item: Item)
    | TimerFires
    | IntakeResolves(tick: nat)
    | RoutingResolves(tick: nat)
    | Fails(tick: nat)

  predicate Running(s: State, tick: nat) {
    tick < |s.ticks| && s.ticks[tick].remaining != []
  }

  predicate Enabled(s: State, step: Step) {
    match step
    case Enqueue(_) => true
    case TimerFires => true
    case IntakeResolves(tick) => Running(s, tick) && !s.ticks[tick].routing
    case RoutingResolves(tick) => Running(s, tick) && s.ticks[tick].routing
    case Fails(tick) => Running(s, tick)
  }

  /** The tick moves on to its next item. */
  function Next(s: State, tick: nat): State
    requires Running(s, tick)
  {
    s.(ticks := s.ticks[tick := Tick(s.ticks[tick].remaining[1..], false)])
  }

  function Apply(s: State, step: Step): State
    requires Enabled(s, step)
  {
    match step
    case Enqueue(item) => s.(queue := s.queue + [item], enqueued := s.enqueued + multiset{item})
    case TimerFires => if s.queue == [] then s else s.(queue := [], ticks := s.ticks + [Tick(s.queue, false)])
    case IntakeResolves(tick) =>
      s.(ticks := s.ticks[tick := s.ticks[tick].(routing := true)],
         intakes := s.intakes + multiset{s.ticks[tick].remaining[0]})
    case RoutingResolves(tick) => Next(s, tick).(synced := s.synced + multiset{s.ticks[tick].remaining[0]})
    case Fails(tick) =>
      var item := s.ticks[tick].remaining[0];
      Next(s, tick).(queue := s.queue + [item],
                     lateFailures := if s.ticks[tick].routing then s.lateFailures + multiset{item} else s.lateFailures)
  }

  function Run(steps: seq<Step>): Option<State> {
    if steps == [] then Some(IDLE)
    else
      var before := Run(steps[..|steps| - 1]);
      if before.Some? && Enabled(before.value, steps[|steps| - 1])
      then Some(Apply(before.value, steps[|steps| - 1])) else None
  }

  // ---- Accounts, item by item ----

  function Times(xs: seq<Item>, x: Item): nat {
    multiset(xs)[x]
  }

  /** How often `x` is in some running tick's remainder. */
  function InFlight(ticks: seq<Tick>, x: Item): nat {
    if ticks == [] then 0 else InFlight(ticks[..|ticks| - 1], x) + Times(ticks[|ticks| - 1].remaining, x)
  }

  function AwaitsRouting(t: Tick, x: Item): nat {
    if t.routing && t.remaining != [] && t.remaining[0] == x then 1 else 0
  }

  /** How often `x` has passed intake and awaits routing. */
  function InRouting(ticks: seq<Tick>, x: Item): nat {
    if ticks == [] then 0 else InRouting(ticks[..|ticks| - 1], x) + AwaitsRouting(ticks[|ticks| - 1], x)
  }

  lemma {:induction false} TickReplaced(ticks: seq<Tick>, i: nat, t: Tick, x: Item)
    requires i < |ticks|
    ensures InFlight(ticks[i := t], x) + Times(ticks[i].remaining, x) == InFlight(ticks, x) + Times(t.remaining, x)
    ensures InRouting(ticks[i := t], x) + AwaitsRouting(ticks[i], x) == InRouting(ticks, x) + AwaitsRouting(t, x)
  {
    hide Times, AwaitsRouting;
    var init := ticks[..|ticks| - 1];
    if i == |ticks| - 1 {
      assert ticks[i := t][..|ticks| - 1] == init;
    } else {
      assert ticks[i := t][..|ticks| - 1] == init[i := t];
      TickReplaced(init, i, t, x);
    }
  }

  lemma {:induction false} TimesSnoc(xs: seq<Item>, y: Item, x: Item)
    ensures Times(xs + [y], x) == Times(xs, x) + if x == y then 1 else 0
  {
  }

  lemma {:induction false} TimesTail(xs: seq<Item>, x: Item)
    requires xs != []
    ensures Times(xs, x) == Times(xs[1..], x) + if x == xs[0] then 1 else 0
  {
    assert xs == [xs[0]] + xs[1..];
  }

  /** What was enqueued is synced, queued or in flight: nothing is lost and nothing is synced twice. */
  predicate Conserved(s: State, x: Item) {
    s.enqueued[x] == s.synced[x] + Times(s.queue, x) + InFlight(s.ticks, x)
  }

  /** Intake is called once per synced item, once more per failure that came after it, and once for each
      item that awaits routing. */
  predicate IntakesAccounted(s: State, x: Item) {
    s.intakes[x] == s.synced[x] + s.lateFailures[x] + InRouting(s.ticks, x)
  }

  lemma {:induction false} FinishItem(s: State, tick: nat, x: Item)
    requires Running(s, tick)
    ensures InFlight(Next(s, tick).ticks, x) + (if x == s.ticks[tick].remaining[0] then 1 else 0)
            == InFlight(s.ticks, x)
    ensures InRouting(Next(s, tick).ticks, x) + AwaitsRouting(s.ticks[tick], x) == InRouting(s.ticks, x)
  {
    var t := s.ticks[tick];
    TimesTail(t.remaining, x);
    TickReplaced(s.ticks, tick, Tick(t.remaining[1..], false), x);
    hide Times;
  }

  lemma {:induction false} TimerConserves(s: State, x: Item)
    requires Conserved(s, x) && IntakesAccounted(s, x)
    ensures Conserved(Apply(s, TimerFires), x) && IntakesAccounted(Apply(s, TimerFires), x)
  {
    var t := Tick(s.queue, false);
    assert (s.ticks + [t])[..|s.ticks|] == s.ticks;
    assert InFlight(s.ticks + [t], x) == InFlight(s.ticks, x) + Times(s.queue, x);
    assert Times([], x) == 0;
  }

  lemma {:induction false} RoutingConserves(s: State, tick: nat, x: Item)
    requires Conserved(s, x) && IntakesAccounted(s, x) && Enabled(s, RoutingResolves(tick))
    ensures Conserved(Apply(s, RoutingResolves(tick)), x) && IntakesAccounted(Apply(s, RoutingResolves(tick)), x)
  {
    FinishItem(s, tick, x);
    hide Times, InFlight, InRouting;
  }

  lemma {:induction false} FailureConserves(s: State, tick: nat, x: Item)
    requires Conserved(s, x) && IntakesAccounted(s, x) && Enabled(s, Fails(tick))
    ensures Conserved(Apply(s, Fails(tick)), x) && IntakesAccounted(Apply(s, Fails(tick)), x)
  {
    FinishItem(s, tick, x);
    TimesSnoc(s.queue, s.ticks[tick].remaining[0], x);
    hide Times, InFlight, InRouting;
  }

  lemma {:induction false} IntakeConserves(s: State, tick: nat, x: Item)
    requires Conserved(s, x) && IntakesAccounted(s, x) && Enabled(s, IntakeResolves(tick))
    ensures Conserved(Apply(s, IntakeResolves(tick)), x) && IntakesAccounted(Apply(s, IntakeResolves(tick)), x)
  {
    TickReplaced(s.ticks, tick, s.ticks[tick].(routing := true), x);
    hide Times, InFlight, InRouting;
  }

  lemma {:induction false} StepConserves(s: State, step: Step, x: Item)
    requires Enabled(s, step) && Conserved(s, x) && IntakesAccounted(s, x)
    ensures Conserved(Apply(s, step), x) && IntakesAccounted(Apply(s, step), x)
  {
    match step
    case Enqueue(item) => TimesSnoc(s.queue, item, x);
    case TimerFires => TimerConserves(s, x);
    case IntakeResolves(tick) => IntakeConserves(s, tick, x);
    case RoutingResolves(tick) => RoutingConserves(s, tick, x);
    case Fails(tick) => FailureConserves(s, tick, x);
  }

  /** In every interleaving of enqueues, overlapping ticks, successes and failures both accounts balance.
      Hence no item is lost or synced more often than enqueued, and its intake is repeated exactly as
      often as its routing failed after intake. */
  lemma {:induction false} NothingLostNothingDoubled(steps: seq<Step>, x: Item)
    requires Run(steps).Some?
    ensures Conserved(Run(steps).value, x) && IntakesAccounted(Run(steps).value, x)
    ensures Run(steps).value.synced[x] <= Run(steps).value.enqueued[x]
  {
    if steps != [] {
      NothingLostNothingDoubled(steps[..|steps| - 1], x);
      StepConserves(Run(steps[..|steps| - 1]).value, steps[|steps| - 1], x);
      hide Apply, InFlight, InRouting, Times;
    }
  }

  /** When a run has drained the queue and every tick, everything enqueued has been synced exactly once. */
  lemma {:induction false} DrainedMeansSynced(steps: seq<Step>)
    requires Run(steps).Some? && Run(steps).value.queue == []
    requires forall i :: 0 <= i < |Run(steps).value.ticks| ==> Run(steps).value.ticks[i].remaining == []
    ensures Run(steps).value.synced == Run(steps).value.enqueued
  {
    var s := Run(steps).value;
    forall x: Item ensures s.synced[x] == s.enqueued[x] {
      NothingLostNothingDoubled(steps, x);
      NothingInFlight(s.ticks, x);
      assert Times([], x) == 0;
    }
  }

  lemma {:induction false} NothingInFlight(ticks: seq<Tick>, x: Item)
    requires forall i :: 0 <= i < |ticks| ==> ticks[i].remaining == []
    ensures InFlight(ticks, x) == 0
  {
    if ticks != [] { NothingInFlight(ticks[..|ticks| - 1], x); }
  }

  class PostWinOfflineService {
    var queue: seq<Item>
    var ticks: seq<Tick>
    ghost var enqueued: multiset<Item>
    ghost var synced: multiset<Item>
    ghost var intakes: multiset<Item>
    ghost var lateFailures: multiset<Item>

    ghost function Current(): State
      reads this
    {
      State(queue, ticks, enqueued, synced, intakes, lateFailures)
    }

    constructor ()
      ensures Current() == IDLE
    {
      queue, ticks := [], [];
      enqueued, synced, intakes, lateFailures := multiset{}, multiset{}, multiset{}, multiset{};
    }

    method EnqueueIntake(item: Item)
      modifies this
      ensures Current() == Apply(old(Current()), Enqueue(item))
    {
      queue := queue + [item];
      enqueued := enqueued + multiset{item};
    }

    /** The timer callback up to its first await: snapshot, then clear. */
    method TimerCallback()
      modifies this
      ensures Current() == Apply(old(Current()), TimerFires)
    {
      if |queue| == 0 { return; }
      var itemsToSync := queue;
      queue := [];
      ticks := ticks + [Tick(itemsToSync, false)];
    }

    method AfterIntake(tick: nat)
      requires Enabled(Current(), IntakeResolves(tick))
      modifies this
      ensures Current() == Apply(old(Current()), IntakeResolves(tick))
    {
      intakes := intakes + multiset{ticks[tick].remaining[0]};
      ticks := ticks[tick := ticks[tick].(routing := true)];
    }

    method AfterRouting(tick: nat)
      requires Enabled(Current(), RoutingResolves(tick))
      modifies this
      ensures Current() == Apply(old(Current()), RoutingResolves(tick))
    {
      synced := synced + multiset{ticks[tick].remaining[0]};
      ticks := ticks[tick := Tick(ticks[tick].remaining[1..], false)];
    }

    /** The catch branch: the item goes back to the end of the queue. */
    method Caught(tick: nat)
      requires Enabled(Current(), Fails(tick))
      modifies this
      ensures Current() == Apply(old(Current()), Fails(tick))
    {
      var item := ticks[tick].remaining[0];
      if ticks[tick].routing { lateFailures := lateFailures + multiset{item}; }
      queue := queue + [item];
      ticks := ticks[tick := Tick(ticks[tick].remaining[1..], false)];
    }
  }

  // ---- Order ----

  /** The snapshots the timer has taken, in order, and after them the queue. */
  datatype Trace = Trace(entries: seq<Item>, taken: seq<Item>)

  /** What has entered the queue, by enqueueing or after a failure, and what the timer has taken out of it. */
  function TraceOf(steps: seq<Step>): Trace
    requires Run(steps).Some?
  {
    if steps == [] then Trace([], [])
    else
      var before, last := steps[..|steps| - 1], steps[|steps| - 1];
      var (trace, s) := (TraceOf(before), Run(before).value);
      match last
      case Enqueue(item) => trace.(entries := trace.entries + [item])
      case Fails(tick) => trace.(entries := trace.entries + [s.ticks[tick].remaining[0]])
      case TimerFires => trace.(taken := trace.taken + s.queue)
      case _ => trace
  }

  /** First in, first out: what the timer has taken, followed by what is queued, is what entered, in that order. */
  lemma {:induction false} QueueKeepsOrder(steps: seq<Step>)
    requires Run(steps).Some?
    ensures TraceOf(steps).entries == TraceOf(steps).taken + Run(steps).value.queue
  {
    if steps != [] {
      QueueKeepsOrder(steps[..|steps| - 1]);
    }
  }

  /** A tick that starts holds the whole queue in its order, and works it off from the front. */
  lemma {:induction false} TicksKeepOrder(s: State, step: Step)
    requires Enabled(s, step)
    ensures
      var s' := Apply(s, step);
      match step
      case TimerFires => s.queue != [] ==> s'.ticks == s.ticks + [Tick(s.queue, false)]
      case RoutingResolves(i) => s'.ticks == s.ticks[i := Tick(s.ticks[i].remaining[1..], false)]
      case Fails(i) => s'.ticks == s.ticks[i := Tick(s.ticks[i].remaining[1..], false)]
      case IntakeResolves(i) => s'.ticks == s.ticks[i := Tick(s.ticks[i].remaining, true)]
      case Enqueue(_) => s'.ticks == s.ticks
  {
  }

  // ---- Draining ----

  /** The items of all ticks not yet finished. */
  function Todo(ticks: seq<Tick>): nat {
    if ticks == [] then 0 else Todo(ticks[..|ticks| - 1]) + |ticks[|ticks| - 1].remaining|
  }

  lemma {:induction false} TodoReplaced(ticks: seq<Tick>, i: nat, t: Tick)
    requires i < |ticks|
    ensures Todo(ticks[i := t]) + |ticks[i].remaining| == Todo(ticks) + |t.remaining|
  {
    var init := ticks[..|ticks| - 1];
    if i == |ticks| - 1 {
      assert ticks[i := t][..|ticks| - 1] == init;
    } else {
      assert ticks[i := t][..|ticks| - 1] == init[i := t];
      TodoReplaced(init, i, t);
    }
  }

  lemma {:induction false} RunSnoc(steps: seq<Step>, step: Step)
    ensures Run(steps).Some? && Enabled(Run(steps).value, step) ==>
              Run(steps + [step]) == Some(Apply(Run(steps).value, step))
  {
    assert (steps + [step])[..|steps|] == steps;
    hide Enabled, Apply;
  }

  predicate Drained(s: State) {
    s.queue == [] && forall i :: 0 <= i < |s.ticks| ==> s.ticks[i].remaining == []
  }

  lemma {:induction false} ItemCanFinish(steps: seq<Step>, i: nat) returns (more: seq<Step>)
    requires Run(steps).Some? && i < |Run(steps).value.ticks| && Run(steps).value.ticks[i].remaining != []
    ensures
      var (s, r) := (Run(steps).value, Run(steps + more));
      && r.Some? && r.value.queue == s.queue && r.value.enqueued == s.enqueued
      && r.value.ticks == s.ticks[i := Tick(s.ticks[i].remaining[1..], false)]
  {
    var s := Run(steps).value;
    hide Run;
    if s.ticks[i].routing {
      more := [RoutingResolves(i)];
      RunSnoc(steps, RoutingResolves(i));
    } else {
      more := [IntakeResolves(i), RoutingResolves(i)];
      RunSnoc(steps, IntakeResolves(i));
      RunSnoc(steps + [IntakeResolves(i)], RoutingResolves(i));
      assert steps + more == steps + [IntakeResolves(i)] + [RoutingResolves(i)];
    }
  }

  lemma {:induction false} TicksCanFinish(steps: seq<Step>, todo: nat) returns (more: seq<Step>)
    requires Run(steps).Some? && Run(steps).value.queue == [] && Todo(Run(steps).value.ticks) == todo
    ensures Run(steps + more).Some? && Drained(Run(steps + more).value)
    ensures Run(steps + more).value.enqueued == Run(steps).value.enqueued
    decreases todo
  {
    hide Run, Todo, Enabled, Apply;
    var s := Run(steps).value;
    if Drained(s) {
      more := [];
      assert steps + more == steps;
    } else {
      var i: nat :| i < |s.ticks| && s.ticks[i].remaining != [];
      hide Drained;
      var first := ItemCanFinish(steps, i);
      TodoReplaced(s.ticks, i, Tick(s.ticks[i].remaining[1..], false));
      var rest := TicksCanFinish(steps + first, todo - 1);
      more := first + rest;
      assert steps + first + rest == steps + more;
    }
  }

  /** From wherever a run has got to, it can go on without a failure until everything enqueued is synced. */
  lemma {:induction false} CanDrain(steps: seq<Step>) returns (more: seq<Step>)
    requires Run(steps).Some?
    ensures Run(steps + more).Some?
    ensures
      var s := Run(steps + more).value;
      Drained(s) && s.synced == s.enqueued == Run(steps).value.enqueued
  {
    hide Run, Todo;
    var s := Run(steps).value;
    RunSnoc(steps, TimerFires);
    assert Apply(s, TimerFires).queue == [] && Apply(s, TimerFires).enqueued == s.enqueued;
    hide Apply, Enabled;
    var fired := steps + [TimerFires];
    var rest := TicksCanFinish(fired, Todo(Run(fired).value.ticks));
    more := [TimerFires] + rest;
    assert fired + rest == steps + more;
    DrainedMeansSynced(steps + more);
  }

  /** Whatever the state, an item can be enqueued. */
  lemma {:induction false} EnqueueIsFree(steps: seq<Step>, item: Item)
    requires Run(steps).Some?
    ensures Run(steps + [Enqueue(item)]).Some?
    ensures Run(steps + [Enqueue(item)]).value.enqueued == Run(steps).value.enqueued + multiset{item}
  {
    RunSnoc(steps, Enqueue(item));
    hide Run;
  }
}
