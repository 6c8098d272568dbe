/** Overlapping updates of one read position: the read and the write of an update are separate statements
    with no transaction around them, so updates of one user and case interleave. */
module ReadPositionRace {
  import opened Common
  import opened Messages

  type Pid = nat

  /** `after` is how many writes had been made at the moment of the read; no statement uses it. */
  datatype Update = Waiting(m: Message) | HasRead(m: Message, seen: Option<Message>, after: nat) | Finished

  /** The histories record what happened: the messages written, how many writes each writer had seen when it
      read, and the messages of all updates that got to the write. */
  datatype State = State(
    position: Option<Message>,
    updates: map<Pid, Update>,
    written: seq<Message>,
    readAt: seq<nat>,
    attempts: seq<Message>
  )

  datatype Step = Begin(p: Pid, m: Message) | Read(p: Pid) | Write(p: Pid)

  predicate Enabled(s: State, step: Step) {
    match step
    case Begin(p, _) => p !in s.updates
    case Read(p) => p in s.updates && s.updates[p].Waiting?
    case Write(p) => p in s.updates && s.updates[p].HasRead?
  }

  /** isBackward, judged on the position that was read. */
  predicate Skips(u: Update)
    requires u.HasRead?
  {
    u.seen.Some? && Before(At(u.m), At(u.seen.value))
  }

  function Apply(s: State, step: Step): State
    requires Enabled(s, step)
  {
    match step
    case Begin(p, m) => s.(updates := s.updates[p := Waiting(m)])
    case Read(p) => s.(updates := s.updates[p := HasRead(s.updates[p].m, s.position, |s.written|)])
    case Write(p) =>
      var u := s.updates[p];
      var s' := s.(updates := s.updates[p := Finished], attempts := s.attempts + [u.m]);
      if Skips(u) then s' else s'.(position := Some(u.m), written := s.written + [u.m], readAt := s.readAt + [u.after])
  }

  function Run(start: Option<Message>, steps: seq<Step>): Option<State> {
    if steps == [] then Some(State(start, map[], [], [], []))
    else
      var before := Run(start, steps[..|steps| - 1]);
      if before.Some? && Enabled(before.value, steps[|steps| - 1])
      then Some(Apply(before.value, steps[|steps| - 1])) else None
  }

  /** The position after the first `n` writes. */
  function PositionAfter(start: Option<Message>, written: seq<Message>, n: nat): Option<Message>
    requires n <= |written|
  {
    if n == 0 then start else Some(written[n - 1])
  }

  predicate NotBehind(start: Option<Message>, position: Option<Message>) {
    start.Some? ==> position.Some? && !Before(At(position.value), At(start.value))
  }

  /** The row holds the last write, and each update saw what the row held when it read. */
  predicate Inv(start: Option<Message>, s: State) {
    && s.position == PositionAfter(start, s.written, |s.written|)
    && (forall n :: 0 <= n <= |s.written| ==> NotBehind(start, PositionAfter(start, s.written, n)))
    && (forall p :: p in s.updates && s.updates[p].HasRead? ==>
          s.updates[p].after <= |s.written| && s.updates[p].seen == PositionAfter(start, s.written, s.updates[p].after))
  }

  lemma {:induction false} StepKeepsInv(start: Option<Message>, s: State, step: Step)
    requires Inv(start, s) && Enabled(s, step)
    ensures Inv(start, Apply(s, step))
  {
    var s' := Apply(s, step);
    if step.Write? && !Skips(s.updates[step.p]) {
      var u := s.updates[step.p];
      assert NotBehind(start, u.seen);
      forall n | 0 <= n <= |s'.written| ensures NotBehind(start, PositionAfter(start, s'.written, n)) {
        if n <= |s.written| { assert PositionAfter(start, s'.written, n) == PositionAfter(start, s.written, n); }
      }
    }
  }

  lemma {:induction false} Reachable(start: Option<Message>, steps: seq<Step>)
    requires Run(start, steps).Some?
    ensures Inv(start, Run(start, steps).value)
  {
    if steps != [] {
      Reachable(start, steps[..|steps| - 1]);
      StepKeepsInv(start, Run(start, steps[..|steps| - 1]).value, steps[|steps| - 1]);
      hide Inv, Apply, Enabled;
    }
  }

  /** Whatever the overlap, the position never falls behind the one the run began with. */
  lemma {:induction false} NeverBehindStart(start: Option<Message>, steps: seq<Step>)
    requires Run(start, steps).Some?
    ensures NotBehind(start, Run(start, steps).value.position)
  {
    Reachable(start, steps);
    hide Run;
  }

  // ---- Where a run ends ----

  /** Each write was judged on a position it was not before. */
  predicate WritesJudged(start: Option<Message>, written: seq<Message>, readAt: seq<nat>) {
    && |readAt| == |written|
    && forall i :: 0 <= i < |written| ==>
         readAt[i] <= i && !IsBefore(written[i], PositionAfter(start, written, readAt[i]))
  }

  /** Each update that got to the write and wrote nothing was judged on a position it was before. */
  ghost predicate AttemptsJudged(start: Option<Message>, written: seq<Message>, attempts: seq<Message>) {
    forall m :: m in attempts ==>
      m in written || exists n :: 0 <= n <= |written| && IsBefore(m, PositionAfter(start, written, n))
  }

  ghost predicate Judged(start: Option<Message>, s: State) {
    WritesJudged(start, s.written, s.readAt) && AttemptsJudged(start, s.written, s.attempts)
  }

  predicate IsBefore(m: Message, position: Option<Message>) {
    position.Some? && Before(At(m), At(position.value))
  }

  lemma {:induction false} OneMoreWrite(start: Option<Message>, written: seq<Message>, readAt: seq<nat>, m: Message,
                                        n: nat)
    requires WritesJudged(start, written, readAt) && n <= |written| && !IsBefore(m, PositionAfter(start, written, n))
    ensures WritesJudged(start, written + [m], readAt + [n])
  {
    var written', readAt' := written + [m], readAt + [n];
    assert forall k: nat | k <= |written| :: PositionAfter(start, written', k) == PositionAfter(start, written, k);
    hide PositionAfter, IsBefore;
    forall i | 0 <= i < |written'|
      ensures readAt'[i] <= i && !IsBefore(written'[i], PositionAfter(start, written', readAt'[i]))
    {
      if i < |written| { assert written'[i] == written[i] && readAt'[i] == readAt[i]; }
    }
  }

  lemma {:induction false} OneMoreAttempt(start: Option<Message>, written: seq<Message>, attempts: seq<Message>,
                                          m: Message)
    requires AttemptsJudged(start, written, attempts)
    ensures AttemptsJudged(start, written + [m], attempts + [m])
  {
    var written' := written + [m];
    assert forall k: nat | k <= |written| :: PositionAfter(start, written', k) == PositionAfter(start, written, k);
    hide PositionAfter, IsBefore;
    forall x | x in attempts + [m]
      ensures x in written' || exists n :: 0 <= n <= |written'| && IsBefore(x, PositionAfter(start, written', n))
    {
      if x in attempts && x !in written {
        var n :| 0 <= n <= |written| && IsBefore(x, PositionAfter(start, written, n));
        assert IsBefore(x, PositionAfter(start, written', n));
      }
    }
  }

  lemma {:induction false} WriteKeepsJudged(start: Option<Message>, s: State, p: Pid)
    requires Inv(start, s) && Judged(start, s) && Enabled(s, Write(p))
    ensures Judged(start, Apply(s, Write(p)))
  {
    var u := s.updates[p];
    assert u.seen == PositionAfter(start, s.written, u.after) && u.after <= |s.written|;
    assert Skips(u) <==> IsBefore(u.m, u.seen);
    hide Inv, PositionAfter, IsBefore, Skips, WritesJudged;
    if !Skips(u) {
      OneMoreWrite(start, s.written, s.readAt, u.m, u.after);
      OneMoreAttempt(start, s.written, s.attempts, u.m);
    }
  }

  lemma {:induction false} ReachableIsJudged(start: Option<Message>, steps: seq<Step>)
    requires Run(start, steps).Some?
    ensures Judged(start, Run(start, steps).value)
  {
    if steps != [] {
      var before, last := steps[..|steps| - 1], steps[|steps| - 1];
      ReachableIsJudged(start, before);
      Reachable(start, before);
      if last.Write? { WriteKeepsJudged(start, Run(start, before).value, last.p); }
      hide Inv, PositionAfter, IsBefore;
    }
  }

  /** No write is of a later message, and none after it is of an equally late one. */
  predicate IsLastGreatest(written: seq<Message>, g: nat) {
    && g < |written|
    && (forall i :: 0 <= i < |written| ==> !Before(At(written[g]), At(written[i])))
    && (forall i :: g < i < |written| ==> Before(At(written[i]), At(written[g])))
  }

  /** Nothing was ever later than the greatest write. */
  predicate IsGreatest(start: Option<Message>, s: State, m: Message) {
    && (start.Some? ==> !Before(At(m), At(start.value)))
    && forall a :: a in s.attempts ==> !Before(At(m), At(a))
  }

  lemma {:induction false} WrittenIsGreatest(start: Option<Message>, s: State, g: nat)
    requires Inv(start, s) && Judged(start, s) && IsLastGreatest(s.written, g)
    ensures IsGreatest(start, s, s.written[g])
  {
    assert NotBehind(start, PositionAfter(start, s.written, g + 1));
    forall a | a in s.attempts ensures !Before(At(s.written[g]), At(a)) {
      if a !in s.written {
        var n :| 0 <= n <= |s.written| && IsBefore(a, PositionAfter(start, s.written, n));
      }
    }
  }

  /** Where a run ends, exactly. If it wrote at all, it ends at the greatest of the start and the messages of
      all its updates if and only if every write after the last write of the greatest was made by an update
      that read after that write as well; so a run loses ground exactly when an update that had read before
      the greatest message was written writes after it. */
  lemma {:induction false} EndsAtGreatestIff(start: Option<Message>, steps: seq<Step>, g: nat)
    requires Run(start, steps).Some? && IsLastGreatest(Run(start, steps).value.written, g)
    ensures
      var s := Run(start, steps).value;
      && IsGreatest(start, s, s.written[g]) && |s.readAt| == |s.written| && s.position.Some?
      && (At(s.position.value) == At(s.written[g]) <==> forall i :: g < i < |s.written| ==> s.readAt[i] > g)
  {
    Reachable(start, steps);
    ReachableIsJudged(start, steps);
    hide Run, WritesJudged, AttemptsJudged, IsGreatest, IsLastGreatest, PositionAfter;
    var s := Run(start, steps).value;
    WrittenIsGreatest(start, s, g);
    LastGreatestIsLastIff(start, s, g);
  }

  lemma {:induction false} LastGreatestIsLastIff(start: Option<Message>, s: State, g: nat)
    requires s.position == PositionAfter(start, s.written, |s.written|)
    requires WritesJudged(start, s.written, s.readAt) && IsLastGreatest(s.written, g)
    ensures |s.readAt| == |s.written| && s.position.Some?
    ensures At(s.position.value) == At(s.written[g]) <==> forall i :: g < i < |s.written| ==> s.readAt[i] > g
  {
    hide IsBefore;
    var last := s.written[|s.written| - 1];
    assert s.position == Some(last);
    assert |s.readAt| == |s.written|;
    hide WritesJudged;
    if g + 1 < |s.written| {
      assert At(last) != At(s.written[g]) by { assert Before(At(last), At(s.written[g])); }
      NextIsStale(start, s.written, s.readAt, g);
    }
    hide *;
  }

  lemma {:induction false} NextIsStale(start: Option<Message>, written: seq<Message>, readAt: seq<nat>, g: nat)
    requires WritesJudged(start, written, readAt) && IsLastGreatest(written, g) && g + 1 < |written|
    ensures readAt[g + 1] <= g
  {
    hide PositionAfter;
    PositionOf(start, written, g);
    assert IsBefore(written[g + 1], PositionAfter(start, written, g + 1));
    hide IsBefore;
  }

  lemma {:induction false} PositionOf(start: Option<Message>, written: seq<Message>, g: nat)
    requires g < |written|
    ensures PositionAfter(start, written, g + 1) == Some(written[g])
  {
  }

  /** And a run that wrote nothing had nothing later to write. */
  lemma {:induction false} NothingWritten(start: Option<Message>, steps: seq<Step>)
    requires Run(start, steps).Some? && Run(start, steps).value.written == []
    ensures
      var s := Run(start, steps).value;
      s.position == start && forall a :: a in s.attempts ==> IsBefore(a, start)
  {
    Reachable(start, steps);
    ReachableIsJudged(start, steps);
    hide Run;
  }

  // ---- Step by step ----

  predicate MovesBackward(s: State, s': State) {
    s.position.Some? && (s'.position.None? || Before(At(s'.position.value), At(s.position.value)))
  }

  /** Another update has written since this one read, and has taken the position past its message. */
  predicate Overtaken(s: State, p: Pid)
    requires p in s.updates && s.updates[p].HasRead?
  {
    && |s.written| > s.updates[p].after
    && !Skips(s.updates[p])
    && s.position.Some? && Before(At(s.updates[p].m), At(s.position.value))
  }

  /** A step moves the position backwards if and only if it is the write of an overtaken update. */
  lemma {:induction false} BackwardIffOvertaken(start: Option<Message>, steps: seq<Step>, step: Step)
    requires Run(start, steps).Some? && Enabled(Run(start, steps).value, step)
    ensures
      var s := Run(start, steps).value;
      MovesBackward(s, Apply(s, step)) <==> step.Write? && Overtaken(s, step.p)
  {
    Reachable(start, steps);
    hide Run;
  }

  /** Every write comes with no other write since its update read. */
  predicate NoOverlap(start: Option<Message>, steps: seq<Step>)
    requires Run(start, steps).Some?
  {
    steps == [] ||
    var before, last := steps[..|steps| - 1], steps[|steps| - 1];
    NoOverlap(start, before) &&
    (last.Write? ==> Run(start, before).value.updates[last.p].after == |Run(start, before).value.written|)
  }

  /** Without overlap the updates have the effect of one after the other, so by EndsAtMaximum the run ends at
      the latest of the start and the messages read. */
  lemma {:induction false} WithoutOverlapAllAdvance(start: Option<Message>, steps: seq<Step>)
    requires Run(start, steps).Some? && NoOverlap(start, steps)
    ensures
      var s := Run(start, steps).value;
      && s.position == AdvanceAll(start, s.attempts)
      && (s.position.Some? ==> forall m :: m in s.attempts ==> !Before(At(s.position.value), At(m)))
  {
    AttemptsAdvance(start, steps);
    EndsAtMaximum(start, Run(start, steps).value.attempts);
  }

  lemma {:induction false} AttemptsAdvance(start: Option<Message>, steps: seq<Step>)
    requires Run(start, steps).Some? && NoOverlap(start, steps)
    ensures Run(start, steps).value.position == AdvanceAll(start, Run(start, steps).value.attempts)
  {
    if steps != [] {
      var before, last := steps[..|steps| - 1], steps[|steps| - 1];
      AttemptsAdvance(start, before);
      Reachable(start, before);
      var s := Run(start, before).value;
      if last.Write? {
        assert (s.attempts + [s.updates[last.p].m])[..|s.attempts|] == s.attempts;
      }
    }
  }

  /** Overlap does lose ground: of two updates that both read first, the one with the earlier message,
      writing last, takes the position back. */
  lemma {:induction false} OverlapLosesGround(start: Option<Message>, a: Message, b: Message) returns (steps: seq<Step>)
    requires Before(At(a), At(b)) && (start.Some? ==> !Before(At(a), At(start.value)))
    ensures Run(start, steps).Some? && Run(start, steps).value.attempts == [b, a]
    ensures Run(start, steps).value.position == Some(a)
    ensures AdvanceAll(start, [b, a]) == Some(b)
  {
    var s0 := State(start, map[], [], [], []);
    var s1 := Apply(s0, Begin(0, a));
    var s2 := Apply(s1, Begin(1, b));
    var s3 := Apply(s2, Read(0));
    var s4 := Apply(s3, Read(1));
    var s5 := Apply(s4, Write(1));
    var s6 := Apply(s5, Write(0));
    steps := Continue(start, [], Begin(0, a), s0, s1);
    steps := Continue(start, steps, Begin(1, b), s1, s2);
    steps := Continue(start, steps, Read(0), s2, s3);
    steps := Continue(start, steps, Read(1), s3, s4);
    steps := Continue(start, steps, Write(1), s4, s5);
    steps := Continue(start, steps, Write(0), s5, s6);
    assert [b, a][..1] == [b] && [b][..0] == [];
    assert AdvanceAll(start, [b]) == Some(b);
  }

  lemma {:induction false} Continue(start: Option<Message>, steps: seq<Step>, step: Step, s: State, after: State)
    returns (longer: seq<Step>)
    requires Run(start, steps) == Some(s) && Enabled(s, step) && after == Apply(s, step)
    ensures Run(start, longer) == Some(after)
  {
    longer := steps + [step];
    assert longer[..|steps|] == steps;
  }
}
