/** The lifecycle transition transaction run by any number of processes at once.

    Each process runs the statements of one transition: read the row, check the edge, check the
    execution row, update the row where it still holds the value read, draw a global sequence number,
    append the commit, commit the transaction. The database runs at READ COMMITTED: the conditional
    update waits for the row lock and is evaluated on the last committed row, its effect and the
    appended commit stay private until commit, and a drawn sequence number is never given back. */
module LifecycleProtocol {
  import opened Common
  import opened CaseLifecycle

  type Pid = nat
  type CaseId = nat

  datatype Commit = Commit(ts: nat, caseId: CaseId, hop: Hop, event: EventType)

  /** Where a process is. `seen` counts the case's commits at the moment of the read; no statement uses it. */
  datatype Process =
    | Started(caseId: CaseId, target: Lifecycle)
    | HasRead(caseId: CaseId, target: Lifecycle, previous: Lifecycle, seen: nat)
    | Cleared(caseId: CaseId, next: Lifecycle, previous: Lifecycle, seen: nat)
    | Updated(caseId: CaseId, next: Lifecycle, previous: Lifecycle)
    | HasTs(caseId: CaseId, next: Lifecycle, previous: Lifecycle, ts: nat)
    | Appended(caseId: CaseId, commit: Commit)
    | Done
    | RolledBack

  datatype State = State(
    stored: map<CaseId, Lifecycle>,   // committed rows
    executions: set<CaseId>,          // cases that have an execution row
    locks: map<CaseId, Pid>,          // row lock holders
    nextTs: nat,                      // ledger_global_seq
    ledger: seq<Commit>,              // committed lifecycle commits, in order of transaction commit
    procs: map<Pid, Process>
  )

  datatype Step =
    | CreateCase(c: CaseId)
    | CreateExecution(c: CaseId)
    | DrawElsewhere                   // any other service's ledger append
    | Begin(p: Pid, c: CaseId, target: Lifecycle)
    | ReadRow(p: Pid)
    | CheckEdge(p: Pid)
    | UpdateRow(p: Pid)
    | DrawTs(p: Pid)
    | Append(p: Pid)
    | CommitTx(p: Pid)
    | Crash(p: Pid)                   // any later throw, or a lost connection

  predicate Alive(s: State, p: Pid) {
    p in s.procs && !s.procs[p].Done? && !s.procs[p].RolledBack?
  }

  predicate Enabled(s: State, step: Step) {
    match step
    case CreateCase(c) => c !in s.stored
    case CreateExecution(c) => c in s.stored
    case DrawElsewhere => true
    case Begin(p, _, _) => p !in s.procs
    case ReadRow(p) => p in s.procs && s.procs[p].Started?
    case CheckEdge(p) => p in s.procs && s.procs[p].HasRead?
    case UpdateRow(p) => p in s.procs && s.procs[p].Cleared? && s.procs[p].caseId !in s.locks
    case DrawTs(p) => p in s.procs && s.procs[p].Updated?
    case Append(p) => p in s.procs && s.procs[p].HasTs?
    case CommitTx(p) => p in s.procs && s.procs[p].Appended?
    case Crash(p) => Alive(s, p)
  }

  function Goto(s: State, p: Pid, q: Process): State {
    s.(procs := s.procs[p := q])
  }

  /** A throw: the transaction's private writes and its row lock vanish. */
  function Abort(s: State, p: Pid): State
    requires p in s.procs
  {
    Goto(s, p, RolledBack).(locks := map c | c in s.locks && s.locks[c] != p :: s.locks[c])
  }

  function Apply(s: State, step: Step): State
    requires Enabled(s, step)
  {
    match step
    case CreateCase(c) => s.(stored := s.stored[c := Intake])
    case CreateExecution(c) => s.(executions := s.executions + {c})
    case DrawElsewhere => s.(nextTs := s.nextTs + 1)
    case Begin(p, c, target) => Goto(s, p, Started(c, target))
    case ReadRow(p) =>
      var q := s.procs[p];
      if q.caseId !in s.stored then Abort(s, p)
      else Goto(s, p, HasRead(q.caseId, q.target, s.stored[q.caseId], |CommitsOf(s.ledger, q.caseId)|))
    case CheckEdge(p) =>
      var q := s.procs[p];
      if TransitionCase(q.previous, q.target).Failure? then Abort(s, p)
      else if q.target == Executing && q.caseId !in s.executions then Abort(s, p)
      else Goto(s, p, Cleared(q.caseId, q.target, q.previous, q.seen))
    case UpdateRow(p) =>
      var q := s.procs[p];
      if q.caseId !in s.stored || s.stored[q.caseId] != q.previous then Abort(s, p)
      else Goto(s, p, Updated(q.caseId, q.next, q.previous)).(locks := s.locks[q.caseId := p])
    case DrawTs(p) =>
      var q := s.procs[p];
      Goto(s, p, HasTs(q.caseId, q.next, q.previous, s.nextTs)).(nextTs := s.nextTs + 1)
    case Append(p) =>
      var q := s.procs[p];
      Goto(s, p, Appended(q.caseId, Commit(q.ts, q.caseId, Hop(q.previous, q.next), EventFor(q.next))))
    case CommitTx(p) =>
      var q := s.procs[p];
      Goto(s, p, Done).(
        stored := s.stored[q.caseId := q.commit.hop.to],
        ledger := s.ledger + [q.commit],
        locks := map c | c in s.locks && s.locks[c] != p :: s.locks[c])
    case Crash(p) => Abort(s, p)
  }

  const EMPTY := State(map[], {}, map[], 0, [], map[])

  /** The state after running `steps`, None if some step was not enabled. */
  function Run(steps: seq<Step>): Option<State> {
    if steps == [] then Some(EMPTY)
    else
      var before := Run(steps[..|steps| - 1]);
      if before.Some? && Enabled(before.value, steps[|steps| - 1])
      then Some(Apply(before.value, steps[|steps| - 1])) else None
  }

  function CommitsOf(ledger: seq<Commit>, c: CaseId): seq<Commit> {
    Filter(ledger, (k: Commit) => k.caseId == c)
  }

  function Hops(commits: seq<Commit>): (hops: seq<Hop>)
    ensures |hops| == |commits|
  {
    seq(|commits|, i requires 0 <= i < |commits| => commits[i].hop)
  }

  /** The committed transitions of one case are one path ending in the stored lifecycle, in ts order. */
  predicate Linear(commits: seq<Commit>, stored: Lifecycle, nextTs: nat) {
    && IsPath(Hops(commits))
    && stored == StateAfter(Hops(commits), |commits|)
    && (forall i :: 0 <= i < |commits| ==> commits[i].event == EventFor(commits[i].hop.to))
    && (forall i, j :: 0 <= i < j < |commits| ==> commits[i].ts < commits[j].ts)
    && (forall i :: 0 <= i < |commits| ==> commits[i].ts < nextTs)
  }

  /** The process holds the row lock of its case. */
  predicate Holds(s: State, p: Pid) {
    p in s.procs && (s.procs[p].Updated? || s.procs[p].HasTs? || s.procs[p].Appended?)
  }

  predicate ProcOk(s: State, p: Pid)
    requires p in s.procs
  {
    match s.procs[p]
    case HasRead(c, target, previous, seen) =>
      && c in s.stored
      && seen <= |CommitsOf(s.ledger, c)|
      && previous == StateAfter(Hops(CommitsOf(s.ledger, c)), seen)
    case Cleared(c, next, previous, seen) =>
      && c in s.stored
      && seen <= |CommitsOf(s.ledger, c)|
      && previous == StateAfter(Hops(CommitsOf(s.ledger, c)), seen)
      && Edge(previous, next)
      && (next == Executing ==> c in s.executions)
    case Updated(c, next, previous) => Owns(s, p, c, Hop(previous, next))
    case HasTs(c, next, previous, ts) => Owns(s, p, c, Hop(previous, next)) && FreshTs(s, c, ts)
    case Appended(c, commit) =>
      && Owns(s, p, c, commit.hop) && FreshTs(s, c, commit.ts)
      && commit.caseId == c && commit.event == EventFor(commit.hop.to)
    case _ => true
  }

  predicate Owns(s: State, p: Pid, c: CaseId, hop: Hop) {
    && c in s.locks && s.locks[c] == p
    && c in s.stored && s.stored[c] == hop.from && Edge(hop.from, hop.to)
    && (hop.to == Executing ==> c in s.executions)
  }

  predicate FreshTs(s: State, c: CaseId, ts: nat) {
    ts < s.nextTs && forall k :: k in CommitsOf(s.ledger, c) ==> k.ts < ts
  }

  /** The committed part: rows, ledger and executions. */
  ghost predicate Committed(s: State) {
    && (forall k :: k in s.ledger ==> k.caseId in s.stored)
    && (forall c :: c in s.stored ==> Linear(CommitsOf(s.ledger, c), s.stored[c], s.nextTs))
    && (forall k :: k in s.ledger && k.hop.to == Executing ==> k.caseId in s.executions)
  }

  /** The private part: lock holders and program counters. */
  ghost predicate Private(s: State) {
    && (forall c :: c in s.locks ==> Holds(s, s.locks[c]) && s.procs[s.locks[c]].caseId == c)
    && (forall p :: p in s.procs ==> ProcOk(s, p))
  }

  ghost predicate Inv(s: State) {
    Committed(s) && Private(s)
  }

  // ---- The invariant is kept by every step ----

  lemma {:induction false} LinearLater(commits: seq<Commit>, stored: Lifecycle, ts: nat, ts': nat)
    requires Linear(commits, stored, ts) && ts <= ts'
    ensures Linear(commits, stored, ts')
  {
  }

  lemma {:induction false} NewCaseIsLinear(ledger: seq<Commit>, c: CaseId, ts: nat)
    requires forall k :: k in ledger ==> k.caseId != c
    ensures Linear(CommitsOf(ledger, c), Intake, ts)
  {
    FilterNone(ledger, (k: Commit) => k.caseId == c);
  }

  /** Every step but a commit and a case creation leaves the visible rows and the ledger as they were. */
  lemma {:induction false} QuietStep(s: State, step: Step)
    requires Enabled(s, step) && !step.CommitTx?
    ensures Apply(s, step).ledger == s.ledger
    ensures Apply(s, step).stored == if step.CreateCase? then s.stored[step.c := Intake] else s.stored
    ensures s.nextTs <= Apply(s, step).nextTs && s.executions <= Apply(s, step).executions
  {
  }

  /** Steps other than a commit keep the ledger and the committed rows of existing cases. */
  lemma {:induction false} QuietStepKeepsCommitted(s: State, step: Step)
    requires Inv(s) && Enabled(s, step) && !step.CommitTx?
    ensures Committed(Apply(s, step))
  {
    QuietStep(s, step);
    KeepsCommitted(s, Apply(s, step));
  }

  lemma {:induction false} KeepsCommitted(s: State, s': State)
    requires Committed(s) && s'.ledger == s.ledger
    requires s.nextTs <= s'.nextTs && s.executions <= s'.executions
    requires forall c :: c in s.stored ==> c in s'.stored && s'.stored[c] == s.stored[c]
    requires forall c :: c in s'.stored && c !in s.stored ==> s'.stored[c] == Intake
    ensures Committed(s')
  {
    forall c | c in s'.stored ensures Linear(CommitsOf(s'.ledger, c), s'.stored[c], s'.nextTs) {
      if c in s.stored {
        LinearLater(CommitsOf(s.ledger, c), s.stored[c], s.nextTs, s'.nextTs);
      } else {
        NewCaseIsLinear(s.ledger, c, s'.nextTs);
      }
    }
  }

  /** A process is undisturbed by a step that keeps the ledger and its lock and grows everything else. */
  lemma {:induction false} Undisturbed(s: State, s': State, p: Pid)
    requires p in s.procs && ProcOk(s, p)
    requires p in s'.procs && s'.procs[p] == s.procs[p]
    requires s'.ledger == s.ledger && s.nextTs <= s'.nextTs && s.executions <= s'.executions
    requires forall c :: c in s.stored ==> c in s'.stored && s'.stored[c] == s.stored[c]
    requires forall c :: c in s.locks && s.locks[c] == p ==> c in s'.locks && s'.locks[c] == p
    ensures ProcOk(s', p)
  {
  }

  lemma {:induction false} AbortKeepsPrivate(s: State, p: Pid)
    requires Inv(s) && p in s.procs
    ensures Private(Abort(s, p))
  {
    var s' := Abort(s, p);
    forall q | q in s'.procs ensures ProcOk(s', q) {
      if q != p { Undisturbed(s, s', q); }
    }
  }

  /** The step of a process that stays alive and whose new program counter is in order. */
  lemma {:induction false} MoveKeepsPrivate(s: State, s': State, p: Pid)
    requires Inv(s)
    requires p in s'.procs && s'.procs == s.procs[p := s'.procs[p]] && ProcOk(s', p)
    requires s'.ledger == s.ledger && s'.stored == s.stored && s'.executions == s.executions
    requires s.nextTs <= s'.nextTs
    requires p in s.procs && Holds(s, p) ==> Holds(s', p) && s'.procs[p].caseId == s.procs[p].caseId
    requires s'.locks == s.locks ||
             (Holds(s', p) && s'.procs[p].caseId !in s.locks && s'.locks == s.locks[s'.procs[p].caseId := p])
    ensures Private(s')
  {
    forall q | q in s'.procs ensures ProcOk(s', q) {
      if q != p { Undisturbed(s, s', q); }
    }
    forall c | c in s'.locks ensures Holds(s', s'.locks[c]) && s'.procs[s'.locks[c]].caseId == c {
      if c in s.locks { assert Holds(s, s.locks[c]); }
    }
  }

  lemma {:induction false} EnvironmentKeepsPrivate(s: State, step: Step)
    requires Inv(s) && Enabled(s, step)
    requires step.CreateCase? || step.CreateExecution? || step.DrawElsewhere?
    ensures Private(Apply(s, step))
  {
    var s' := Apply(s, step);
    forall q | q in s'.procs ensures ProcOk(s', q) {
      Undisturbed(s, s', q);
    }
    forall c | c in s'.locks ensures Holds(s', s'.locks[c]) && s'.procs[s'.locks[c]].caseId == c {
      assert Holds(s, s.locks[c]);
    }
  }

  lemma {:induction false} QuietStepKeepsPrivate(s: State, step: Step)
    requires Inv(s) && Enabled(s, step) && !step.CommitTx?
    ensures Private(Apply(s, step))
  {
    match step
    case CreateCase(_) => EnvironmentKeepsPrivate(s, step);
    case CreateExecution(_) => EnvironmentKeepsPrivate(s, step);
    case DrawElsewhere => EnvironmentKeepsPrivate(s, step);
    case Begin(p, _, _) => MoveKeepsPrivate(s, Apply(s, step), p);
    case ReadRow(p) => ReadKeepsPrivate(s, p);
    case CheckEdge(p) => CheckKeepsPrivate(s, p);
    case UpdateRow(p) => UpdateKeepsPrivate(s, p);
    case DrawTs(p) => DrawKeepsPrivate(s, p);
    case Append(p) =>
      assert ProcOk(s, p);
      MoveKeepsPrivate(s, Apply(s, step), p);
    case Crash(p) => AbortKeepsPrivate(s, p);
  }

  lemma {:induction false} ReadKeepsPrivate(s: State, p: Pid)
    requires Inv(s) && Enabled(s, ReadRow(p))
    ensures Private(Apply(s, ReadRow(p)))
  {
    var c := s.procs[p].caseId;
    if c !in s.stored { AbortKeepsPrivate(s, p); } else {
      assert Linear(CommitsOf(s.ledger, c), s.stored[c], s.nextTs);
      MoveKeepsPrivate(s, Apply(s, ReadRow(p)), p);
    }
  }

  lemma {:induction false} CheckKeepsPrivate(s: State, p: Pid)
    requires Inv(s) && Enabled(s, CheckEdge(p))
    ensures Private(Apply(s, CheckEdge(p)))
  {
    assert ProcOk(s, p);
    var s' := Apply(s, CheckEdge(p));
    if s'.procs[p].RolledBack? { AbortKeepsPrivate(s, p); } else {
      assert ProcOk(s', p);
      hide Private, Committed, Linear;
      MoveKeepsPrivate(s, s', p);
    }
  }

  lemma {:induction false} UpdateKeepsPrivate(s: State, p: Pid)
    requires Inv(s) && Enabled(s, UpdateRow(p))
    ensures Private(Apply(s, UpdateRow(p)))
  {
    assert ProcOk(s, p);
    hide Linear, CommitsOf, Edge;
    var s' := Apply(s, UpdateRow(p));
    if s'.procs[p].RolledBack? { AbortKeepsPrivate(s, p); } else { MoveKeepsPrivate(s, s', p); }
  }

  lemma {:induction false} DrawKeepsPrivate(s: State, p: Pid)
    requires Inv(s) && Enabled(s, DrawTs(p))
    ensures Private(Apply(s, DrawTs(p)))
  {
    assert ProcOk(s, p);
    var c := s.procs[p].caseId;
    var h := CommitsOf(s.ledger, c);
    assert Linear(h, s.stored[c], s.nextTs);
    forall k | k in h ensures k.ts < s.nextTs {
      var i :| 0 <= i < |h| && h[i] == k;
    }
    MoveKeepsPrivate(s, Apply(s, DrawTs(p)), p);
  }

  lemma {:induction false} PathExtends(hops: seq<Hop>, hop: Hop)
    requires IsPath(hops) && hop.from == StateAfter(hops, |hops|) && Edge(hop.from, hop.to)
    ensures IsPath(hops + [hop]) && StateAfter(hops + [hop], |hops| + 1) == hop.to
  {
    hide Edge;
    forall i | 0 <= i < |hops| + 1
      ensures (hops + [hop])[i].from == StateAfter(hops + [hop], i)
              && Edge((hops + [hop])[i].from, (hops + [hop])[i].to)
    {
      if i < |hops| { assert hops[i].from == StateAfter(hops, i); }
    }
  }

  lemma {:induction false} LinearExtends(commits: seq<Commit>, stored: Lifecycle, nextTs: nat, k: Commit)
    requires Linear(commits, stored, nextTs)
    requires k.hop.from == stored && Edge(k.hop.from, k.hop.to) && k.event == EventFor(k.hop.to)
    requires k.ts < nextTs && forall e :: e in commits ==> e.ts < k.ts
    ensures Linear(commits + [k], k.hop.to, nextTs)
  {
    hide IsPath, EventFor, Edge;
    var after := commits + [k];
    assert Hops(after) == Hops(commits) + [k.hop];
    PathExtends(Hops(commits), k.hop);
    assert k in after;
    forall i | 0 <= i < |after|
      ensures after[i].ts < nextTs && after[i].event == EventFor(after[i].hop.to)
    {
      if i < |commits| { assert after[i] == commits[i]; }
    }
    forall i, j | 0 <= i < j < |after| ensures after[i].ts < after[j].ts {
      if j == |commits| { assert after[i] in commits; }
    }
  }

  lemma {:induction false} CommitsAfter(s: State, k: Commit, d: CaseId)
    ensures d == k.caseId ==> CommitsOf(s.ledger + [k], d) == CommitsOf(s.ledger, d) + [k]
    ensures d != k.caseId ==> CommitsOf(s.ledger + [k], d) == CommitsOf(s.ledger, d)
  {
    FilterSnoc(s.ledger, k, (x: Commit) => x.caseId == d);
  }

  /** The committed part after appending `k` and moving its case along. */
  lemma {:induction false} CommitExtends(s: State, s': State, k: Commit)
    requires Committed(s) && k.caseId in s.stored && s.stored[k.caseId] == k.hop.from
    requires Edge(k.hop.from, k.hop.to) && k.event == EventFor(k.hop.to)
    requires k.hop.to == Executing ==> k.caseId in s.executions
    requires FreshTs(s, k.caseId, k.ts)
    requires s'.ledger == s.ledger + [k] && s'.stored == s.stored[k.caseId := k.hop.to]
    requires s'.nextTs == s.nextTs && s'.executions == s.executions
    ensures Committed(s')
  {
    hide Edge, EventFor, Linear, CommitsOf;
    forall d | d in s'.stored ensures Linear(CommitsOf(s'.ledger, d), s'.stored[d], s'.nextTs) {
      CommitsAfter(s, k, d);
      assert Linear(CommitsOf(s.ledger, d), s.stored[d], s.nextTs);
      if d == k.caseId { LinearExtends(CommitsOf(s.ledger, d), s.stored[d], s.nextTs, k); }
    }
  }

  lemma {:induction false} CommitKeepsCommitted(s: State, p: Pid)
    requires Inv(s) && Enabled(s, CommitTx(p))
    ensures Committed(Apply(s, CommitTx(p)))
  {
    hide Edge, EventFor, Linear, CommitsOf;
    assert ProcOk(s, p);
    CommitExtends(s, Apply(s, CommitTx(p)), s.procs[p].commit);
  }

  lemma {:induction false} StateAfterKept(before: seq<Commit>, after: seq<Commit>, n: nat)
    requires n <= |before| && before <= after
    ensures StateAfter(Hops(before), n) == StateAfter(Hops(after), n)
  {
  }

  /** A reader keeps what it saw when its case's history grows. */
  lemma {:induction false} ReaderUndisturbed(s: State, s': State, q: Pid)
    requires q in s.procs && ProcOk(s, q) && (s.procs[q].HasRead? || s.procs[q].Cleared?)
    requires q in s'.procs && s'.procs[q] == s.procs[q]
    requires s.procs[q].caseId in s'.stored && s'.executions == s.executions
    requires CommitsOf(s.ledger, s.procs[q].caseId) <= CommitsOf(s'.ledger, s.procs[q].caseId)
    ensures ProcOk(s', q)
  {
    hide CommitsOf, Edge, Hops;
    var c := s.procs[q].caseId;
    StateAfterKept(CommitsOf(s.ledger, c), CommitsOf(s'.ledger, c), s.procs[q].seen);
  }

  /** A writer is undisturbed while its case, its lock and the case's history stay as they are. */
  lemma {:induction false} WriterUndisturbed(s: State, s': State, q: Pid)
    requires q in s.procs && ProcOk(s, q) && Holds(s, q)
    requires q in s'.procs && s'.procs[q] == s.procs[q]
    requires s.procs[q].caseId in s'.locks && s'.locks[s.procs[q].caseId] == q
    requires s.procs[q].caseId in s.stored && s.procs[q].caseId in s'.stored
    requires s'.stored[s.procs[q].caseId] == s.stored[s.procs[q].caseId]
    requires s'.executions == s.executions && s'.nextTs == s.nextTs
    requires CommitsOf(s.ledger, s.procs[q].caseId) == CommitsOf(s'.ledger, s.procs[q].caseId)
    ensures ProcOk(s', q)
  {
    hide CommitsOf, Edge, EventFor;
  }

  /** A commit disturbs no other process: writers work on other cases, readers keep what they saw. */
  lemma {:induction false} CommitKeepsOthers(s: State, p: Pid, q: Pid)
    requires Inv(s) && Enabled(s, CommitTx(p)) && q in s.procs && q != p
    ensures ProcOk(Apply(s, CommitTx(p)), q)
  {
    hide Edge, EventFor, Linear, CommitsOf;
    var s' := Apply(s, CommitTx(p));
    var k, proc := s.procs[p].commit, s.procs[q];
    assert ProcOk(s, p) && ProcOk(s, q);
    if proc.HasRead? || proc.Cleared? {
      CommitsAfter(s, k, proc.caseId);
      ReaderUndisturbed(s, s', q);
    } else if Holds(s, q) {
      assert proc.caseId != k.caseId;
      CommitsAfter(s, k, proc.caseId);
      WriterUndisturbed(s, s', q);
    }
  }

  lemma {:induction false} CommitKeepsPrivate(s: State, p: Pid)
    requires Inv(s) && Enabled(s, CommitTx(p))
    ensures Private(Apply(s, CommitTx(p)))
  {
    var s' := Apply(s, CommitTx(p));
    forall q | q in s'.procs ensures ProcOk(s', q) {
      if q != p { CommitKeepsOthers(s, p, q); }
    }
    forall c | c in s'.locks ensures Holds(s', s'.locks[c]) && s'.procs[s'.locks[c]].caseId == c {
      assert Holds(s, s.locks[c]);
    }
  }

  lemma {:induction false} StepKeepsInv(s: State, step: Step)
    requires Inv(s) && Enabled(s, step)
    ensures Inv(Apply(s, step))
  {
    if step.CommitTx? {
      CommitKeepsCommitted(s, step.p);
      CommitKeepsPrivate(s, step.p);
    } else {
      QuietStepKeepsCommitted(s, step);
      QuietStepKeepsPrivate(s, step);
    }
  }

  lemma {:induction false} Reachable(steps: seq<Step>)
    requires Run(steps).Some?
    ensures Inv(Run(steps).value)
  {
    if steps != [] {
      Reachable(steps[..|steps| - 1]);
      StepKeepsInv(Run(steps[..|steps| - 1]).value, steps[|steps| - 1]);
    }
  }

  // ---- Main results ----

  /** Whatever the interleaving, the commits of a case ordered by ts are one simple path of declared
      edges from INTAKE to the stored lifecycle, at most seven long. */
  lemma {:induction false} Linearizable(steps: seq<Step>, c: CaseId)
    requires Run(steps).Some? && c in Run(steps).value.stored
    ensures
      var s := Run(steps).value;
      var h := CommitsOf(s.ledger, c);
      && IsPath(Hops(h)) && StateAfter(Hops(h), |h|) == s.stored[c] && |h| <= 7
      && (forall i, j :: 0 <= i < j < |h| ==> h[i].ts < h[j].ts && h[i].hop.from != h[j].hop.from)
      && (forall i :: 0 <= i < |h| ==> h[i].event == EventFor(h[i].hop.to))
      && (forall i :: 0 <= i < |h| && h[i].hop.to == Executing ==> c in s.executions)
  {
    Reachable(steps);
    var h := CommitsOf(Run(steps).value.ledger, c);
    PathsAreShortAndSimple(Hops(h));
    forall i, j | 0 <= i < j < |h| ensures h[i].hop.from != h[j].hop.from {
      assert Hops(h)[i].from != Hops(h)[j].from;
    }
    forall i | 0 <= i < |h| && h[i].hop.to == Executing ensures c in Run(steps).value.executions {
      assert h[i] in h;
    }
  }

  /** Mutual exclusion: two processes between their update and their commit work on different cases. */
  lemma {:induction false} WritersExclude(steps: seq<Step>, p: Pid, q: Pid)
    requires Run(steps).Some? && p != q && Holds(Run(steps).value, p) && Holds(Run(steps).value, q)
    ensures Run(steps).value.procs[p].caseId != Run(steps).value.procs[q].caseId
  {
    Reachable(steps);
    assert ProcOk(Run(steps).value, p) && ProcOk(Run(steps).value, q);
  }

  /** The update compares a value, not a version. Because no lifecycle is ever re-entered this is as
      strong: the update loses exactly when a commit for the case landed since the read. A losing
      update, and every step but a commit and a case creation, leaves rows and ledger as they were. */
  lemma {:induction false} UpdateLosesIffOvertaken(steps: seq<Step>, p: Pid)
    requires Run(steps).Some? && Enabled(Run(steps).value, UpdateRow(p))
    ensures
      var s := Run(steps).value;
      var s' := Apply(s, UpdateRow(p));
      && (s'.procs[p] == RolledBack <==> |CommitsOf(s.ledger, s.procs[p].caseId)| > s.procs[p].seen)
      && s'.stored == s.stored && s'.ledger == s.ledger
      && (s'.procs[p] == RolledBack ==> s' == s.(procs := s'.procs))
  {
    Reachable(steps);
    var s := Run(steps).value;
    ValueComparisonIsVersionComparison(s, p);
    AbortBeforeUpdateFreesNothing(s, p);
  }

  lemma {:induction false} ValueComparisonIsVersionComparison(s: State, p: Pid)
    requires Inv(s) && Enabled(s, UpdateRow(p))
    ensures s.procs[p].caseId in s.stored
    ensures s.stored[s.procs[p].caseId] == s.procs[p].previous <==>
            |CommitsOf(s.ledger, s.procs[p].caseId)| == s.procs[p].seen
    ensures s.procs[p].seen <= |CommitsOf(s.ledger, s.procs[p].caseId)|
  {
    assert ProcOk(s, p);
    var h := CommitsOf(s.ledger, s.procs[p].caseId);
    assert Linear(h, s.stored[s.procs[p].caseId], s.nextTs);
    PathsAreShortAndSimple(Hops(h));
    if s.procs[p].seen < |h| {
      assert StateAfter(Hops(h), s.procs[p].seen) != StateAfter(Hops(h), |h|);
    }
  }

  lemma {:induction false} AbortBeforeUpdateFreesNothing(s: State, p: Pid)
    requires Inv(s) && p in s.procs && !Holds(s, p)
    ensures Abort(s, p) == Goto(s, p, RolledBack)
  {
    forall d | d in s.locks ensures s.locks[d] != p { assert Holds(s, s.locks[d]); }
    assert (map d | d in s.locks && s.locks[d] != p :: s.locks[d]) == s.locks;
  }

  /** Refinement: the visible database changes in one atomic step, a lawful transition appended with the
      greatest ts of its case, and at no other moment of the transaction. */
  lemma {:induction false} StepsRefineAtomicTransition(steps: seq<Step>, step: Step)
    requires Run(steps).Some? && Enabled(Run(steps).value, step)
    ensures
      var s := Run(steps).value;
      var s' := Apply(s, step);
      if step.CommitTx? then AtomicTransition(s, s', s.procs[step.p].commit)
      else s'.ledger == s.ledger
           && s'.stored == if step.CreateCase? then s.stored[step.c := Intake] else s.stored
  {
    Reachable(steps);
    var s := Run(steps).value;
    if step.CommitTx? { assert ProcOk(s, step.p); } else { QuietStep(s, step); }
  }

  /** The whole transaction as one step: lawful for the row it finds, and the newest commit of its case. */
  ghost predicate AtomicTransition(s: State, s': State, k: Commit) {
    && k.caseId in s.stored && k.hop.from == s.stored[k.caseId]
    && TransitionCase(s.stored[k.caseId], k.hop.to) == Success(k.hop.to)
    && (k.hop.to == Executing ==> k.caseId in s.executions)
    && k.event == EventFor(k.hop.to)
    && (forall e :: e in CommitsOf(s.ledger, k.caseId) ==> e.ts < k.ts)
    && s'.stored == s.stored[k.caseId := k.hop.to]
    && s'.ledger == s.ledger + [k]
  }

  // ---- One transaction on its own ----

  lemma {:induction false} RunSnoc(steps: seq<Step>, step: Step)
    requires Run(steps).Some? && Enabled(Run(steps).value, step)
    ensures Run(steps + [step]) == Some(Apply(Run(steps).value, step))
  {
    assert (steps + [step])[..|steps|] == steps;
    hide Enabled, Apply;
  }

  predicate HoldsNothing(s: State, p: Pid) {
    forall c :: c in s.locks ==> s.locks[c] != p
  }

  lemma {:induction false} NewcomersHoldNothing(s: State, p: Pid)
    requires Inv(s) && p !in s.procs
    ensures HoldsNothing(s, p)
  {
    forall c | c in s.locks ensures s.locks[c] != p { assert Holds(s, s.locks[c]); }
  }

  lemma {:induction false} AbortOnly(s: State, p: Pid)
    requires HoldsNothing(s, p) && p in s.procs
    ensures Abort(s, p) == Goto(s, p, RolledBack)
  {
    assert (map c | c in s.locks && s.locks[c] != p :: s.locks[c]) == s.locks;
  }

  function Alone(p: Pid, c: CaseId, target: Lifecycle): seq<Step> {
    [Begin(p, c, target), ReadRow(p), CheckEdge(p), UpdateRow(p), DrawTs(p), Append(p), CommitTx(p)]
  }

  lemma {:induction false} BeginAlone(s: State, p: Pid, c: CaseId, target: Lifecycle)
    requires p !in s.procs
    ensures Enabled(s, Begin(p, c, target)) && Apply(s, Begin(p, c, target)) == Goto(s, p, Started(c, target))
  {
  }

  lemma {:induction false} ReadAlone(s: State, p: Pid)
    requires p in s.procs && s.procs[p].Started? && HoldsNothing(s, p)
    ensures Enabled(s, ReadRow(p))
    ensures
      var (c, s') := (s.procs[p].caseId, Apply(s, ReadRow(p)));
      s' == Goto(s, p, s'.procs[p])
      && if c in s.stored then s'.procs[p].HasRead? && s'.procs[p].caseId == c && s'.procs[p].previous == s.stored[c]
                               && s'.procs[p].target == s.procs[p].target
         else s'.procs[p] == RolledBack
  {
    AbortOnly(s, p);
    hide HoldsNothing;
  }

  lemma {:induction false} CheckAlone(s: State, p: Pid)
    requires p in s.procs && s.procs[p].HasRead? && HoldsNothing(s, p)
    ensures Enabled(s, CheckEdge(p))
    ensures
      var (q, s') := (s.procs[p], Apply(s, CheckEdge(p)));
      s' == Goto(s, p, s'.procs[p])
      && if LawfulMove(q.previous, q.target) && (q.target == Executing ==> q.caseId in s.executions)
         then s'.procs[p].Cleared? && s'.procs[p].caseId == q.caseId && s'.procs[p].next == q.target
              && s'.procs[p].previous == q.previous
         else s'.procs[p] == RolledBack
  {
    AbortOnly(s, p);
    GuardIsLaw(s.procs[p].previous, s.procs[p].target);
    hide HoldsNothing, LawfulMove, TransitionCase;
  }

  /** The state after a cleared transaction has written and committed. */
  function Written(s: State, p: Pid, c: CaseId): State
    requires p in s.procs && s.procs[p].Cleared? && c in s.stored
  {
    var to := s.procs[p].next;
    s.(stored := s.stored[c := to], nextTs := s.nextTs + 1, procs := s.procs[p := Done],
       ledger := s.ledger + [Commit(s.nextTs, c, Hop(s.stored[c], to), EventFor(to))])
  }

  /** Writing: the row moves and one commit is appended. */
  lemma {:induction false} WritesAlone(s: State, p: Pid, c: CaseId) returns (s': State)
    requires p in s.procs && s.procs[p].Cleared? && s.procs[p].caseId == c && c !in s.locks
    requires c in s.stored && s.stored[c] == s.procs[p].previous
    requires HoldsNothing(s, p)
    ensures Enabled(s, UpdateRow(p)) && Enabled(Apply(s, UpdateRow(p)), DrawTs(p))
    ensures Enabled(Apply(Apply(s, UpdateRow(p)), DrawTs(p)), Append(p))
    ensures
      var s3 := Apply(Apply(Apply(s, UpdateRow(p)), DrawTs(p)), Append(p));
      Enabled(s3, CommitTx(p)) && s' == Apply(s3, CommitTx(p))
    ensures s' == Written(s, p, c)
  {
    var s1 := Apply(s, UpdateRow(p));
    assert (map d | d in s1.locks && s1.locks[d] != p :: s1.locks[d]) == s.locks;
    var s3 := Apply(Apply(s1, DrawTs(p)), Append(p));
    s' := Apply(s3, CommitTx(p));
    assert s'.procs == s.procs[p := Done];
    hide EventFor;
  }

  /** The row is at the target, one commit of the lawful move is appended with the next ts, the process is
      done, and nothing else has changed. */
  predicate WentThrough(s: State, s': State, p: Pid, c: CaseId, target: Lifecycle) {
    && c in s.stored && s'.stored == s.stored[c := target] && s'.procs == s.procs[p := Done]
    && s'.executions == s.executions && s'.locks == s.locks
    && |s'.ledger| == |s.ledger| + 1 && s'.ledger[..|s.ledger|] == s.ledger
    && var k := s'.ledger[|s.ledger|];
    && k.caseId == c && k.ts == s.nextTs && k.hop == Hop(s.stored[c], target)
    && (s.stored[c], target, k.event) in LAWFUL
  }

  predicate WasRolledBack(s: State, s': State, p: Pid) {
    s' == s.(procs := s.procs[p := RolledBack])
  }

  /** What a transition that nothing interleaves with does, from every reachable state, on a row nobody has
      locked: it goes through exactly if the move is lawful and, for EXECUTING, the case has an execution;
      otherwise it is rolled back and rows and ledger are as before. */
  lemma {:induction false} AloneItGoesThroughIff(steps: seq<Step>, p: Pid, c: CaseId, target: Lifecycle)
    requires Run(steps).Some? && p !in Run(steps).value.procs
    requires c in Run(steps).value.stored && c !in Run(steps).value.locks
    ensures
      var s := Run(steps).value;
      if LawfulMove(s.stored[c], target) && (target == Executing ==> c in s.executions) then
        && Run(steps + Alone(p, c, target)).Some?
        && WentThrough(s, Run(steps + Alone(p, c, target)).value, p, c, target)
      else
        && Run(steps + Alone(p, c, target)[..3]).Some?
        && WasRolledBack(s, Run(steps + Alone(p, c, target)[..3]).value, p)
  {
    hide *;
    NewcomersRunFree(steps, p);
    var s := Run(steps).value;
    var s3 := FirstThree(steps, s, p, c, target);
    if LawfulMove(s.stored[c], target) && (target == Executing ==> c in s.executions) {
      LastStretch(steps, s, s3, p, c, target);
    } else {
      RollbackMeans(s, s3, p);
    }
  }

  lemma {:induction false} NewcomersRunFree(steps: seq<Step>, p: Pid)
    requires Run(steps).Some? && p !in Run(steps).value.procs
    ensures HoldsNothing(Run(steps).value, p)
  {
    Reachable(steps);
    NewcomersHoldNothing(Run(steps).value, p);
    hide *;
  }

  lemma {:induction false} RollbackMeans(s: State, s3: State, p: Pid)
    requires p in s3.procs && s3 == Goto(s, p, s3.procs[p]) && s3.procs[p] == RolledBack
    ensures WasRolledBack(s, s3, p)
  {
  }

  lemma {:induction false} LastStretch(steps: seq<Step>, s: State, s3: State, p: Pid, c: CaseId, target: Lifecycle)
    requires Run(steps + Alone(p, c, target)[..3]) == Some(s3) && p in s3.procs && s3 == Goto(s, p, s3.procs[p])
    requires HoldsNothing(s, p) && c in s.stored && c !in s.locks && LawfulMove(s.stored[c], target)
    requires s3.procs[p].Cleared? && s3.procs[p].caseId == c && s3.procs[p].next == target
    requires s3.procs[p].previous == s.stored[c]
    ensures Run(steps + Alone(p, c, target)).Some?
    ensures WentThrough(s, Run(steps + Alone(p, c, target)).value, p, c, target)
  {
    hide Run, LawfulMove, WentThrough;
    LastFour(steps + Alone(p, c, target)[..3], s3, p, c);
    assert Alone(p, c, target)[3..] == [UpdateRow(p), DrawTs(p), Append(p), CommitTx(p)];
    assert steps + Alone(p, c, target)[..3] + Alone(p, c, target)[3..] == steps + Alone(p, c, target);
    ThroughMeans(s, s3, p, c, target);
  }

  lemma {:induction false} FirstThree(steps: seq<Step>, s: State, p: Pid, c: CaseId, target: Lifecycle)
    returns (s3: State)
    requires Run(steps) == Some(s) && p !in s.procs && c in s.stored && HoldsNothing(s, p)
    ensures Run(steps + Alone(p, c, target)[..3]) == Some(s3) && p in s3.procs && s3 == Goto(s, p, s3.procs[p])
    ensures
      if LawfulMove(s.stored[c], target) && (target == Executing ==> c in s.executions)
      then s3.procs[p].Cleared? && s3.procs[p].caseId == c && s3.procs[p].next == target
           && s3.procs[p].previous == s.stored[c]
      else s3.procs[p] == RolledBack
  {
    hide Run, Apply, Enabled, LawfulMove;
    BeginAlone(s, p, c, target);
    var s1 := Apply(s, Begin(p, c, target));
    ReadAlone(s1, p);
    var s2 := Apply(s1, ReadRow(p));
    CheckAlone(s2, p);
    s3 := Apply(s2, CheckEdge(p));
    var steps3 := Three(steps, s, Begin(p, c, target), ReadRow(p), CheckEdge(p));
    assert steps3 == steps + Alone(p, c, target)[..3];
  }

  lemma {:induction false} LastFour(steps: seq<Step>, s: State, p: Pid, c: CaseId)
    requires Run(steps) == Some(s) && HoldsNothing(s, p) && c in s.stored && c !in s.locks
    requires p in s.procs && s.procs[p].Cleared? && s.procs[p].caseId == c && s.stored[c] == s.procs[p].previous
    ensures Run(steps + [UpdateRow(p), DrawTs(p), Append(p), CommitTx(p)]) == Some(Written(s, p, c))
  {
    var s' := WritesAlone(s, p, c);
    hide Run, Apply, Enabled;
    RunSnoc(steps, UpdateRow(p));
    var longer := Three(steps + [UpdateRow(p)], Apply(s, UpdateRow(p)), DrawTs(p), Append(p), CommitTx(p));
    assert longer == steps + [UpdateRow(p), DrawTs(p), Append(p), CommitTx(p)];
  }

  lemma {:induction false} ThroughMeans(s: State, s3: State, p: Pid, c: CaseId, target: Lifecycle)
    requires c in s.stored && p in s3.procs && s3 == Goto(s, p, s3.procs[p]) && LawfulMove(s.stored[c], target)
    requires s3.procs[p].Cleared? && s3.procs[p].next == target
    ensures WentThrough(s, Written(s3, p, c), p, c, target)
  {
    GuardIsLaw(s.stored[c], target);
    hide LawfulMove, EventFor;
  }

  lemma {:induction false} Three(steps: seq<Step>, s: State, a: Step, b: Step, c: Step) returns (longer: seq<Step>)
    requires Run(steps) == Some(s) && Enabled(s, a) && Enabled(Apply(s, a), b) && Enabled(Apply(Apply(s, a), b), c)
    ensures longer == steps + [a, b, c] && Run(longer) == Some(Apply(Apply(Apply(s, a), b), c))
  {
    hide Run, Enabled, Apply;
    RunSnoc(steps, a);
    RunSnoc(steps + [a], b);
    RunSnoc(steps + [a] + [b], c);
    longer := steps + [a] + [b] + [c];
  }

  /** For a case that does not exist the read throws. */
  lemma {:induction false} MissingCaseRollsBack(steps: seq<Step>, p: Pid, c: CaseId, target: Lifecycle)
    requires Run(steps).Some? && p !in Run(steps).value.procs && c !in Run(steps).value.stored
    ensures Run(steps + [Begin(p, c, target), ReadRow(p)]).Some?
    ensures
      var (s, s') := (Run(steps).value, Run(steps + [Begin(p, c, target), ReadRow(p)]).value);
      p in s'.procs && s'.procs[p] == RolledBack && s' == s.(procs := s'.procs)
  {
    NewcomersRunFree(steps, p);
    var s := Run(steps).value;
    hide Run, Apply, Enabled;
    BeginAlone(s, p, c, target);
    ReadAlone(Apply(s, Begin(p, c, target)), p);
    RunSnoc(steps, Begin(p, c, target));
    RunSnoc(steps + [Begin(p, c, target)], ReadRow(p));
    assert steps + [Begin(p, c, target)] + [ReadRow(p)] == steps + [Begin(p, c, target), ReadRow(p)];
  }

  /** At any moment another service may draw a number, and exactly a transaction that has begun and not ended may
      fail: it is rolled back, its lock is gone, and rows and ledger are as before. */
  lemma {:induction false} DrawsAndCrashes(steps: seq<Step>, p: Pid)
    requires Run(steps).Some?
    ensures Run(steps + [DrawElsewhere])
            == Some(Run(steps).value.(nextTs := Run(steps).value.nextTs + 1))
    ensures Run(steps + [Crash(p)]).Some? <==>
            p in Run(steps).value.procs && Run(steps).value.procs[p] != Done && Run(steps).value.procs[p] != RolledBack
    ensures Run(steps + [Crash(p)]).Some? ==>
              var (s, s') := (Run(steps).value, Run(steps + [Crash(p)]).value);
              && s' == s.(procs := s.procs[p := RolledBack], locks := s'.locks)
              && forall c :: (c in s'.locks <==> c in s.locks && s.locks[c] != p)
                             && (c in s'.locks ==> s'.locks[c] == s.locks[c])
  {
    assert (steps + [DrawElsewhere])[..|steps|] == steps && (steps + [Crash(p)])[..|steps|] == steps;
  }
}
