/** The ledger's commit pipeline and the supersession graph it builds. */
module Ledger {
  import opened Common
  import opened CaseLifecycle

  type TenantId = nat
  type CaseId = nat
  type UserId = nat

  datatype ActorKind = System | Human

  /** A commit request. The commit's id is its position in the table. */
  datatype Entry = Entry(
    tenantId: TenantId,
    caseId: Option<CaseId>,
    eventType: EventType,
    actorKind: ActorKind,
    actorUserId: Option<UserId>,
    authorityProof: string,
    supersedes: Option<nat>
  )

  datatype Commit = Commit(ts: nat, entry: Entry)

  datatype LedgerError =
    | InvalidEntry
    | SupersededCommitNotFound
    | CrossTenantSupersession
    | AlreadySuperseded
    | InsufficientAuthority
    | SystemCannotSupersedeHuman
    | EqualAuthority

  /** SYSTEM is 1, a human 2, raised to 3 and 4 by the ADMIN: and EXEC: prefixes of the proof. */
  function AuthorityLevel(kind: ActorKind, proof: string): (level: nat)
    ensures 1 <= level <= 4
    ensures level == 1 <==> kind == System
  {
    if kind == System then 1
    else if "EXEC:" <= proof then 4
    else if "ADMIN:" <= proof then 3
    else 2
  }

  function LevelOf(e: Entry): nat {
    AuthorityLevel(e.actorKind, e.authorityProof)
  }

  /** The three rules in the order the source tests them. */
  function ValidateSupersession(newer: Entry, target: Entry): Option<LedgerError> {
    if LevelOf(newer) < LevelOf(target) then Some(InsufficientAuthority)
    else if LevelOf(newer) == 1 && LevelOf(target) > 1 then Some(SystemCannotSupersedeHuman)
    else if LevelOf(newer) == LevelOf(target) then Some(EqualAuthority)
    else None
  }

  /** The three rules amount to a strict order; the second one can never be the rule that fires. */
  lemma {:induction false} SupersessionIsStrictEscalation(newer: Entry, target: Entry)
    ensures ValidateSupersession(newer, target).None? <==> LevelOf(newer) > LevelOf(target)
    ensures ValidateSupersession(newer, target) != Some(SystemCannotSupersedeHuman)
    ensures newer.actorKind == System ==> ValidateSupersession(newer, target).Some?
  {
  }

  predicate WellFormedEntry(e: Entry) {
    && e.authorityProof != ""
    && (e.actorKind == Human ==> e.actorUserId.Some?)
    && (e.actorKind == System ==> e.actorUserId.None?)
  }

  predicate Superseded(commits: seq<Commit>, id: nat) {
    exists j :: 0 <= j < |commits| && commits[j].entry.supersedes == Some(id)
  }

  /** Why a request is refused; None when it is appended. */
  function Refusal(commits: seq<Commit>, e: Entry): Option<LedgerError> {
    if !WellFormedEntry(e) then Some(InvalidEntry)
    else if e.supersedes.None? then None
    else
      var id := e.supersedes.value;
      if id >= |commits| then Some(SupersededCommitNotFound)
      else if commits[id].entry.tenantId != e.tenantId then Some(CrossTenantSupersession)
      else if Superseded(commits, id) then Some(AlreadySuperseded)
      else ValidateSupersession(e, commits[id].entry)
  }

  /** The ledger table and its global sequence. */
  class LedgerService {
    var commits: seq<Commit>
    var nextTs: nat

    constructor ()
      ensures commits == [] && nextTs == 0
    {
      commits, nextTs := [], 0;
    }

    /** Appends, or throws and leaves the table as it was; a drawn sequence number is never given back. */
    method AppendEntry(e: Entry) returns (r: Result<nat, LedgerError>)
      modifies this
      ensures Refusal(old(commits), e).Some? ==>
                r == Failure(Refusal(old(commits), e).value) && commits == old(commits) && nextTs == old(nextTs)
      ensures Refusal(old(commits), e).None? ==>
                r == Success(|old(commits)|)
                && commits == old(commits) + [Commit(old(nextTs), e)] && nextTs == old(nextTs) + 1
    {
      if !WellFormedEntry(e) { return Failure(InvalidEntry); }
      if e.supersedes.Some? {
        var id := e.supersedes.value;
        if id >= |commits| { return Failure(SupersededCommitNotFound); }
        var target := commits[id].entry;
        if target.tenantId != e.tenantId { return Failure(CrossTenantSupersession); }
        var supersededBy := FindSuperseding(id);
        if supersededBy.Some? { return Failure(AlreadySuperseded); }
        var verdict := ValidateSupersession(e, target);
        if verdict.Some? { return Failure(verdict.value); }
      }
      var ts := nextTs;
      nextTs := nextTs + 1;
      commits := commits + [Commit(ts, e)];
      r := Success(|commits| - 1);
    }

    method FindSuperseding(id: nat) returns (r: Option<nat>)
      ensures r.Some? <==> Superseded(commits, id)
      ensures r.Some? ==> r.value < |commits| && commits[r.value].entry.supersedes == Some(id)
    {
      for j := 0 to |commits|
        invariant forall i :: 0 <= i < j ==> commits[i].entry.supersedes != Some(id)
      {
        if commits[j].entry.supersedes == Some(id) { return Some(j); }
      }
      r := None;
    }
  }

  // ---- Runs ----

  /** A request, or a sequence number drawn by a transaction that later rolls back. */
  datatype Step = Append(entry: Entry) | LoseTs

  datatype Table = Table(commits: seq<Commit>, nextTs: nat)

  function Run(steps: seq<Step>): Table {
    if steps == [] then Table([], 0)
    else
      var t := Run(steps[..|steps| - 1]);
      match steps[|steps| - 1]
      case LoseTs => t.(nextTs := t.nextTs + 1)
      case Append(e) =>
        if Refusal(t.commits, e).Some? then t
        else Table(t.commits + [Commit(t.nextTs, e)], t.nextTs + 1)
  }

  /** `b` directly supersedes `a`. */
  predicate Link(commits: seq<Commit>, a: nat, b: nat) {
    a < |commits| && b < |commits| && commits[b].entry.supersedes == Some(a)
  }

  /** What every link obeys. */
  predicate LinksOk(commits: seq<Commit>) {
    && (forall i, j :: 0 <= i < j < |commits| ==> commits[i].ts < commits[j].ts)
    && (forall b :: 0 <= b < |commits| && commits[b].entry.supersedes.Some? ==>
          var a := commits[b].entry.supersedes.value;
          && a < b
          && commits[a].entry.tenantId == commits[b].entry.tenantId
          && LevelOf(commits[a].entry) < LevelOf(commits[b].entry))
    && (forall b, b' :: 0 <= b < b' < |commits| && commits[b].entry.supersedes.Some? ==>
          commits[b'].entry.supersedes != commits[b].entry.supersedes)
  }

  /** An append that is not refused keeps the links in order. */
  lemma {:induction false} AppendKeepsLinks(t: Table, e: Entry)
    requires LinksOk(t.commits) && Refusal(t.commits, e).None?
    requires forall i :: 0 <= i < |t.commits| ==> t.commits[i].ts < t.nextTs
    ensures LinksOk(t.commits + [Commit(t.nextTs, e)])
  {
    if e.supersedes.Some? {
      SupersessionIsStrictEscalation(e, t.commits[e.supersedes.value].entry);
    }
    hide LevelOf;
  }

  lemma {:induction false} ReachableLinksOk(steps: seq<Step>)
    ensures LinksOk(Run(steps).commits)
    ensures forall i :: 0 <= i < |Run(steps).commits| ==> Run(steps).commits[i].ts < Run(steps).nextTs
  {
    if steps != [] {
      ReachableLinksOk(steps[..|steps| - 1]);
      var t := Run(steps[..|steps| - 1]);
      var last := steps[|steps| - 1];
      hide LinksOk, Refusal;
      if last.Append? && Refusal(t.commits, last.entry).None? {
        AppendKeepsLinks(t, last.entry);
      }
    }
  }

  /** Some chain of links leads from `a` to `b`. */
  ghost predicate Leads(commits: seq<Commit>, a: nat, b: nat)
    decreases |commits| - a
  {
    a < |commits| &&
    (a == b || exists next :: a < next && Link(commits, a, next) && Leads(commits, next, b))
  }

  ghost predicate Active(commits: seq<Commit>, a: nat) {
    a < |commits| && !Superseded(commits, a)
  }

  ghost function Next(commits: seq<Commit>, a: nat): (n: nat)
    requires LinksOk(commits) && Superseded(commits, a)
    ensures a < n && Link(commits, a, n)
  {
    var n :| 0 <= n < |commits| && commits[n].entry.supersedes == Some(a);
    n
  }

  lemma {:induction false} NextIsUnique(commits: seq<Commit>, a: nat, n: nat)
    requires LinksOk(commits) && Link(commits, a, n)
    ensures Superseded(commits, a) && n == Next(commits, a)
  {
    assert commits[n].entry.supersedes == Some(a);
    var m := Next(commits, a);
  }

  /** The active commit at the end of the chain through `a`. */
  ghost function Head(commits: seq<Commit>, a: nat): (h: nat)
    requires LinksOk(commits) && a < |commits|
    ensures Active(commits, h) && Leads(commits, a, h)
    decreases |commits| - a
  {
    if !Superseded(commits, a) then a else Head(commits, Next(commits, a))
  }

  /** The number of links between `a` and its head. */
  ghost function LinksToHead(commits: seq<Commit>, a: nat): (n: nat)
    requires LinksOk(commits) && a < |commits|
    ensures LevelOf(commits[a].entry) + n <= LevelOf(commits[Head(commits, a)].entry)
    ensures n <= 3
    decreases |commits| - a
  {
    if !Superseded(commits, a) then 0 else 1 + LinksToHead(commits, Next(commits, a))
  }

  /** Every commit leads to one active commit and no other: the link out of a commit is unique. */
  lemma {:induction false} HeadIsUnique(commits: seq<Commit>, a: nat, h: nat)
    requires LinksOk(commits) && Leads(commits, a, h) && Active(commits, h)
    ensures h == Head(commits, a)
    decreases |commits| - a
  {
    if a != h {
      var n: nat :| a < n && Link(commits, a, n) && Leads(commits, n, h);
      NextIsUnique(commits, a, n);
      HeadIsUnique(commits, n, h);
    }
  }

  /** Chains never join: two commits with the same head lie on one chain. */
  lemma {:induction false} ChainsAreDisjoint(commits: seq<Commit>, a: nat, b: nat)
    requires LinksOk(commits) && a < |commits| && b < |commits|
    requires Head(commits, a) == Head(commits, b)
    ensures Leads(commits, a, b) || Leads(commits, b, a)
    decreases |commits| - a + |commits| - b
  {
    if Superseded(commits, a) && Superseded(commits, b) {
      var a', b' := Next(commits, a), Next(commits, b);
      ChainsAreDisjoint(commits, a', b');
      if a' == b' {
        assert a == b;
      } else if Leads(commits, a', b') {
        LeadsToPredecessor(commits, a', b, b');
      } else {
        LeadsToPredecessor(commits, b', a, a');
      }
    }
  }

  /** A chain that reaches a commit other than its start passes through the commit superseded last. */
  lemma {:induction false} LeadsToPredecessor(commits: seq<Commit>, a: nat, b: nat, b': nat)
    requires LinksOk(commits) && Leads(commits, a, b') && a != b' && Link(commits, b, b')
    ensures Leads(commits, a, b)
    decreases |commits| - a
  {
    var n: nat :| a < n && Link(commits, a, n) && Leads(commits, n, b');
    if n != b' {
      LeadsToPredecessor(commits, n, b, b');
    }
  }

  /** The shape of every reachable ledger: each commit reaches exactly one active commit, in its own
      tenant, later in ts and higher in level, over at most three links, so chains hold at most four
      commits; links only go forward, and chains do not share commits. */
  lemma {:induction false} SupersessionShape(steps: seq<Step>, a: nat)
    requires a < |Run(steps).commits|
    ensures
      var commits := Run(steps).commits;
      && LinksOk(commits)
      && var h := Head(commits, a);
      && Active(commits, h) && Leads(commits, a, h)
      && commits[h].entry.tenantId == commits[a].entry.tenantId
      && (h == a || (commits[a].ts < commits[h].ts && LevelOf(commits[a].entry) < LevelOf(commits[h].entry)))
      && LinksToHead(commits, a) <= 3
    ensures forall h: nat :: Active(Run(steps).commits, h) && Leads(Run(steps).commits, a, h) ==>
              LinksOk(Run(steps).commits) && h == Head(Run(steps).commits, a)
    ensures forall b: nat | b < |Run(steps).commits| && LinksOk(Run(steps).commits)
              && Head(Run(steps).commits, a) == Head(Run(steps).commits, b) ::
              Leads(Run(steps).commits, a, b) || Leads(Run(steps).commits, b, a)
  {
    ReachableLinksOk(steps);
    var commits := Run(steps).commits;
    ShapeOfChain(commits, a);
  }

  lemma {:induction false} ShapeOfChain(commits: seq<Commit>, a: nat)
    requires LinksOk(commits) && a < |commits|
    ensures
      var h := Head(commits, a);
      && commits[h].entry.tenantId == commits[a].entry.tenantId
      && (h == a || (commits[a].ts < commits[h].ts && LevelOf(commits[a].entry) < LevelOf(commits[h].entry)))
    ensures forall h: nat :: Active(commits, h) && Leads(commits, a, h) ==> h == Head(commits, a)
    ensures forall b: nat :: b < |commits| && Head(commits, a) == Head(commits, b) ==>
              Leads(commits, a, b) || Leads(commits, b, a)
  {
    if Head(commits, a) != a { LeadsClimbs(commits, a, Head(commits, a)); }
    forall h: nat | Active(commits, h) && Leads(commits, a, h) ensures h == Head(commits, a) {
      HeadIsUnique(commits, a, h);
    }
    forall b: nat | b < |commits| && Head(commits, a) == Head(commits, b)
      ensures Leads(commits, a, b) || Leads(commits, b, a)
    {
      ChainsAreDisjoint(commits, a, b);
    }
  }

  lemma {:induction false} LeadsClimbs(commits: seq<Commit>, a: nat, b: nat)
    requires LinksOk(commits) && Leads(commits, a, b) && a != b
    ensures b < |commits| && a < b
    ensures commits[a].ts < commits[b].ts && LevelOf(commits[a].entry) < LevelOf(commits[b].entry)
    ensures commits[a].entry.tenantId == commits[b].entry.tenantId
    decreases |commits| - a
  {
    var n: nat :| a < n && Link(commits, a, n) && Leads(commits, n, b);
    if n != b { LeadsClimbs(commits, n, b); }
  }

  /** The depth bound is met: a chain of four commits exists. */
  lemma {:induction false} FourLevelsReached() returns (steps: seq<Step>)
    ensures |Run(steps).commits| == 4 && Link(Run(steps).commits, 0, 1) && Link(Run(steps).commits, 1, 2)
            && Link(Run(steps).commits, 2, 3)
  {
    var e0 := Entry(0, None, VerifiedEvent, System, None, "SYSTEM", None);
    var e1 := Entry(0, None, VerifiedEvent, Human, Some(1), "HUMAN:1", Some(0));
    var e2 := Entry(0, None, VerifiedEvent, Human, Some(1), "ADMIN:1", Some(1));
    var e3 := Entry(0, None, VerifiedEvent, Human, Some(1), "EXEC:1", Some(2));
    var s1, s2, s3 := [Append(e0)], [Append(e0), Append(e1)], [Append(e0), Append(e1), Append(e2)];
    steps := [Append(e0), Append(e1), Append(e2), Append(e3)];
    assert s1[..0] == [] && s2[..1] == s1 && s3[..2] == s2 && steps[..3] == s3;
    assert LevelOf(e1) == 2 by { assert "HUMAN:1"[0] == 'H'; }
    assert LevelOf(e2) == 3 by { assert "ADMIN:1"[..6] == "ADMIN:"; assert "ADMIN:1"[0] == 'A'; }
    assert LevelOf(e3) == 4 by { assert "EXEC:1"[..5] == "EXEC:"; }
    assert Run(s1) == Table([Commit(0, e0)], 1);
    assert !Superseded(Run(s1).commits, 0);
    assert Run(s2) == Table([Commit(0, e0), Commit(1, e1)], 2);
    assert !Superseded(Run(s2).commits, 1);
    assert Run(s3) == Table([Commit(0, e0), Commit(1, e1), Commit(2, e2)], 3);
    assert !Superseded(Run(s3).commits, 2);
    assert Run(steps) == Table([Commit(0, e0), Commit(1, e1), Commit(2, e2), Commit(3, e3)], 4);
  }

  // ---- The same, told on the table and the text ----

  predicate StartsWith(proof: string, prefix: string) {
    |proof| >= |prefix| && forall i :: 0 <= i < |prefix| ==> proof[i] == prefix[i]
  }

  /** SYSTEM is the lowest level whatever its proof says; the proof of a human lifts it to the top two. */
  lemma {:induction false} LevelsAre(kind: ActorKind, proof: string)
    ensures AuthorityLevel(kind, proof) == 1 <==> kind == System
    ensures AuthorityLevel(kind, proof) == 4 <==> kind == Human && StartsWith(proof, "EXEC:")
    ensures AuthorityLevel(kind, proof) == 3 <==> kind == Human && StartsWith(proof, "ADMIN:")
    ensures AuthorityLevel(kind, proof) == 2 <==>
            kind == Human && !StartsWith(proof, "EXEC:") && !StartsWith(proof, "ADMIN:")
  {
    assert "EXEC:" <= proof <==> StartsWith(proof, "EXEC:");
    assert "ADMIN:" <= proof <==> StartsWith(proof, "ADMIN:");
    if StartsWith(proof, "EXEC:") { assert proof[0] == 'E'; }
    if StartsWith(proof, "ADMIN:") { assert proof[0] == 'A'; }
    hide StartsWith;
  }

  /** Which request is refused, and with which error, in the order of the checks. */
  lemma {:induction false} RefusalIs(commits: seq<Commit>, e: Entry)
    ensures
      var r := Refusal(commits, e);
      if e.authorityProof == "" || (e.actorKind == Human && e.actorUserId == None)
         || (e.actorKind == System && e.actorUserId != None) then r == Some(InvalidEntry)
      else if e.supersedes == None then r == None
      else
        var id := e.supersedes.value;
        if id >= |commits| then r == Some(SupersededCommitNotFound)
        else if commits[id].entry.tenantId != e.tenantId then r == Some(CrossTenantSupersession)
        else if exists j :: 0 <= j < |commits| && commits[j].entry.supersedes == Some(id)
        then r == Some(AlreadySuperseded)
        else
          var (mine, its) := (AuthorityLevel(e.actorKind, e.authorityProof),
            AuthorityLevel(commits[id].entry.actorKind, commits[id].entry.authorityProof));
          r == if mine < its then Some(InsufficientAuthority) else if mine == its then Some(EqualAuthority) else None
  {
    hide AuthorityLevel;
    if e.supersedes.Some? && e.supersedes.value < |commits| {
      SupersessionIsStrictEscalation(e, commits[e.supersedes.value].entry);
    }
  }

  /** One more request of a run: the table and the sequence afterwards. */
  lemma {:induction false} OneMoreStep(steps: seq<Step>, step: Step)
    ensures
      var (t, t') := (Run(steps), Run(steps + [step]));
      match step
      case LoseTs => t'.commits == t.commits && t'.nextTs == t.nextTs + 1
      case Append(e) =>
        if Refusal(t.commits, e).Some? then t' == t
        else t'.commits == t.commits + [Commit(t.nextTs, e)] && t'.nextTs == t.nextTs + 1
  {
    assert (steps + [step])[..|steps|] == steps;
    hide Refusal;
  }
}
