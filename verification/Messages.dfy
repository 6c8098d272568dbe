/** The messages of a case: cursor pages, read positions, unread counts and idempotent creation. */
module Messages {
  import opened Common

  type TenantId = nat
  type CaseId = nat
  type UserId = nat

  /** Creation times in milliseconds; ids in the order the database compares them. */
  datatype Message = Message(id: nat, tenantId: TenantId, caseId: CaseId, authorId: UserId, createdAt: int,
                             mutationId: Option<nat>)

  /** A position in the (createdAt, id) order. */
  datatype Cursor = Cursor(createdAt: int, id: nat)

  function At(m: Message): Cursor {
    Cursor(m.createdAt, m.id)
  }

  predicate Before(a: Cursor, b: Cursor) {
    a.createdAt < b.createdAt || (a.createdAt == b.createdAt && a.id < b.id)
  }

  predicate UniqueIds(table: seq<Message>) {
    forall i, j :: 0 <= i < j < |table| ==> table[i].id != table[j].id
  }

  // ---- The query ----

  /** where: one case of one tenant, strictly before the cursor when there is one. */
  predicate Selected(m: Message, t: TenantId, c: CaseId, cursor: Option<Cursor>) {
    m.tenantId == t && m.caseId == c && (cursor.Some? ==> Before(At(m), cursor.value))
  }

  /** Strictly descending by (createdAt, id). */
  predicate Descending(r: seq<Message>) {
    forall i, j :: 0 <= i < j < |r| ==> Before(At(r[j]), At(r[i]))
  }

  function InsertDescending(m: Message, r: seq<Message>): (s: seq<Message>)
    ensures |s| == |r| + 1
    ensures forall x :: x in s <==> x == m || x in r
  {
    if r == [] || Before(At(r[0]), At(m)) then [m] + r else [r[0]] + InsertDescending(m, r[1..])
  }

  /** findMany: the selected rows, orderBy (createdAt desc, id desc). */
  function Query(table: seq<Message>, t: TenantId, c: CaseId, cursor: Option<Cursor>): (r: seq<Message>)
    ensures |r| <= |table|
    ensures forall m :: m in r <==> m in table && Selected(m, t, c, cursor)
  {
    if table == [] then []
    else
      assert table == [table[0]] + table[1..];
      var rest := Query(table[1..], t, c, cursor);
      if Selected(table[0], t, c, cursor) then InsertDescending(table[0], rest) else rest
  }

  lemma {:induction false} InsertKeepsDescending(m: Message, r: seq<Message>)
    requires Descending(r) && forall x :: x in r ==> x.id != m.id
    ensures Descending(InsertDescending(m, r))
  {
    if r != [] && !Before(At(r[0]), At(m)) {
      assert r[0].id != m.id;
      InsertKeepsDescending(m, r[1..]);
      var s := InsertDescending(m, r[1..]);
      forall j | 0 <= j < |s| ensures Before(At(s[j]), At(r[0])) {
        assert s[j] in s;
        if s[j] != m { assert s[j] in r[1..]; }
      }
    }
  }

  lemma {:induction false} QueryDescends(table: seq<Message>, t: TenantId, c: CaseId, cursor: Option<Cursor>)
    requires UniqueIds(table)
    ensures Descending(Query(table, t, c, cursor))
  {
    if table != [] {
      QueryDescends(table[1..], t, c, cursor);
      var rest := Query(table[1..], t, c, cursor);
      forall x | x in rest ensures x.id != table[0].id {
        assert x in table[1..];
        var i :| 0 <= i < |table[1..]| && table[1..][i] == x;
        assert table[i + 1] == x;
      }
      if Selected(table[0], t, c, cursor) { InsertKeepsDescending(table[0], rest); }
    }
  }

  lemma {:induction false} TailMembers(r: seq<Message>, m: Message)
    requires Descending(r) && r != []
    ensures m in r[1..] <==> m in r && m != r[0]
  {
    if m in r && m != r[0] {
      var k :| 0 <= k < |r| && r[k] == m;
      assert r[1..][k - 1] == m;
    }
  }

  /** There is only one way to list a set of rows in descending order. */
  lemma {:induction false} ListingIsUnique(a: seq<Message>, b: seq<Message>)
    requires Descending(a) && Descending(b) && forall m :: m in a <==> m in b
    ensures a == b
  {
    assert a != [] ==> a[0] in a;
    assert b != [] ==> b[0] in b;
    if a != [] && b != [] {
      assert a[0] in b && b[0] in a;
      var i :| 0 <= i < |b| && b[i] == a[0];
      var j :| 0 <= j < |a| && a[j] == b[0];
      assert a[0] == b[0];
      forall m ensures m in a[1..] <==> m in b[1..] {
        TailMembers(a, m);
        TailMembers(b, m);
      }
      ListingIsUnique(a[1..], b[1..]);
    }
  }

  /** Asking for what comes after the k-th row of a listing gives the rest of that listing. */
  lemma {:induction false} QueryAfter(table: seq<Message>, t: TenantId, c: CaseId, cursor: Option<Cursor>, k: nat)
    requires UniqueIds(table) && 0 < k <= |Query(table, t, c, cursor)|
    ensures
      var q := Query(table, t, c, cursor);
      Query(table, t, c, Some(At(q[k - 1]))) == q[k..]
  {
    var q := Query(table, t, c, cursor);
    var next := Some(At(q[k - 1]));
    QueryDescends(table, t, c, cursor);
    QueryDescends(table, t, c, next);
    assert q[k - 1] in q;
    forall m ensures m in q[k..] <==> m in table && Selected(m, t, c, next) {
      if m in table && Selected(m, t, c, next) {
        assert Selected(m, t, c, cursor);
        assert m in q;
        var i :| 0 <= i < |q| && q[i] == m;
        assert i >= k;
        assert q[k..][i - k] == m;
      }
      if m in q[k..] {
        var i :| 0 <= i < |q[k..]| && q[k..][i] == m;
        assert q[k + i] == m && m in q;
      }
    }
    ListingIsUnique(Query(table, t, c, next), q[k..]);
  }

  // ---- Pages ----

  datatype Page = Page(messages: seq<Message>, nextCursor: Option<Cursor>, hasMore: bool)

  function Clamp(limit: int): (n: nat)
    ensures 1 <= n <= 100
  {
    if limit < 1 then 1 else if limit > 100 then 100 else limit
  }

  function Reverse(s: seq<Message>): (r: seq<Message>)
    ensures |r| == |s|
  {
    seq(|s|, i requires 0 <= i < |s| => s[|s| - 1 - i])
  }

  /** The page for a query result `q`: its first `n` rows, oldest first. */
  function PageOf(q: seq<Message>, n: nat): Page
    requires n > 0
  {
    if |q| > n then Page(Reverse(q[..n]), Some(At(q[n - 1])), true) else Page(Reverse(q), None, false)
  }

  function UnReversed(pages: seq<Page>): seq<Message> {
    if pages == [] then [] else Reverse(pages[0].messages) + UnReversed(pages[1..])
  }

  /** The pages a client sees when it follows nextCursor until hasMore is false. */
  function Follow(table: seq<Message>, t: TenantId, c: CaseId, limit: int, cursor: Option<Cursor>): (pages: seq<Page>)
    requires UniqueIds(table)
    ensures |pages| > 0
    decreases |Query(table, t, c, cursor)|
  {
    var q := Query(table, t, c, cursor);
    var page := PageOf(q, Clamp(limit));
    if page.hasMore then
      QueryAfter(table, t, c, cursor, Clamp(limit));
      [page] + Follow(table, t, c, limit, page.nextCursor)
    else [page]
  }

  lemma {:induction false} ReverseTwice(s: seq<Message>)
    ensures Reverse(Reverse(s)) == s
  {
  }

  /** ceil(total / n) pages, but never none. */
  predicate PageCount(pages: nat, total: nat, n: nat) {
    if total == 0 then pages == 1 else pages > 0 && (pages - 1) * n < total <= pages * n
  }

  /** Every page but the last is full and says there is more; the last says there is not. */
  predicate PageShape(pages: seq<Page>, n: nat) {
    pages != [] &&
    if |pages| == 1 then !pages[0].hasMore
    else pages[0].hasMore && |pages[0].messages| == n && PageShape(pages[1..], n)
  }

  lemma {:induction false} OnePageMore(pages: nat, total: nat, n: nat)
    requires PageCount(pages, total, n) && total > 0
    ensures PageCount(pages + 1, total + n, n)
  {
    assert (pages + 1) * n == pages * n + n && pages * n == (pages - 1) * n + n;
  }

  lemma {:induction false} FollowUnfolds(table: seq<Message>, t: TenantId, c: CaseId, limit: int,
                                         cursor: Option<Cursor>)
    requires UniqueIds(table)
    ensures
      var (q, n) := (Query(table, t, c, cursor), Clamp(limit));
      if |q| > n then
        var next := Some(At(q[n - 1]));
        Query(table, t, c, next) == q[n..]
        && Follow(table, t, c, limit, cursor) == [PageOf(q, n)] + Follow(table, t, c, limit, next)
      else Follow(table, t, c, limit, cursor) == [PageOf(q, n)]
  {
    var q, n := Query(table, t, c, cursor), Clamp(limit);
    if |q| > n { QueryAfter(table, t, c, cursor, n); }
  }

  lemma {:induction false} FirstPage(q: seq<Message>, n: nat, rest: seq<Page>)
    requires 0 < n < |q| && UnReversed(rest) == q[n..] && PageShape(rest, n)
    ensures UnReversed([PageOf(q, n)] + rest) == q && PageShape([PageOf(q, n)] + rest, n)
  {
    ReverseTwice(q[..n]);
    assert ([PageOf(q, n)] + rest)[1..] == rest;
    assert q == q[..n] + q[n..];
  }

  lemma {:induction false} OnlyPage(q: seq<Message>, n: nat)
    requires |q| <= n && n > 0
    ensures UnReversed([PageOf(q, n)]) == q && PageShape([PageOf(q, n)], n) && PageCount(1, |q|, n)
  {
    ReverseTwice(q);
    assert UnReversed([PageOf(q, n)]) == Reverse(PageOf(q, n).messages) + UnReversed([]);
  }

  /** Following the cursors gives every row of the listing once and in order, in max(1, ceil(n / limit))
      pages, each but the last full. */
  lemma {:induction false} PagesCoverListing(table: seq<Message>, t: TenantId, c: CaseId, limit: int,
                                             cursor: Option<Cursor>)
    requires UniqueIds(table)
    ensures
      var (q, pages, n) := (Query(table, t, c, cursor), Follow(table, t, c, limit, cursor), Clamp(limit));
      Descending(q) && UnReversed(pages) == q && PageCount(|pages|, |q|, n) && PageShape(pages, n)
    decreases |Query(table, t, c, cursor)|
  {
    hide *;
    var q, n := Query(table, t, c, cursor), Clamp(limit);
    QueryDescends(table, t, c, cursor);
    FollowUnfolds(table, t, c, limit, cursor);
    if |q| > n {
      var next := Some(At(q[n - 1]));
      PagesCoverListing(table, t, c, limit, next);
      var rest := Follow(table, t, c, limit, next);
      OnePageMore(|rest|, |q| - n, n);
      FirstPage(q, n, rest);
    } else {
      OnlyPage(q, n);
    }
  }

  /** Messages that are not before the cursor do not change the pages still to come. */
  lemma {:induction false} NewerMessagesDoNotDisturb(table: seq<Message>, newer: seq<Message>, t: TenantId, c: CaseId,
                                                     limit: int, cursor: Cursor)
    requires UniqueIds(table + newer) && UniqueIds(table)
    requires forall m :: m in newer ==> !Before(At(m), cursor)
    ensures Query(table + newer, t, c, Some(cursor)) == Query(table, t, c, Some(cursor))
    ensures Follow(table + newer, t, c, limit, Some(cursor)) == Follow(table, t, c, limit, Some(cursor))
    decreases |Query(table, t, c, Some(cursor))|
  {
    var q, q', n := Query(table, t, c, Some(cursor)), Query(table + newer, t, c, Some(cursor)), Clamp(limit);
    QueryDescends(table, t, c, Some(cursor));
    QueryDescends(table + newer, t, c, Some(cursor));
    ListingIsUnique(q, q');
    var page := PageOf(q, n);
    if page.hasMore {
      QueryAfter(table, t, c, Some(cursor), n);
      assert q[n - 1] in q;
      NewerMessagesDoNotDisturb(table, newer, t, c, limit, page.nextCursor.value);
    }
  }

  // ---- Read positions ----

  /** Forward-only: a position moves to a message unless that message lies before it. */
  function Advance(position: Option<Message>, m: Message): Message {
    if position.Some? && Before(At(m), At(position.value)) then position.value else m
  }

  function AdvanceAll(position: Option<Message>, ms: seq<Message>): Option<Message> {
    if ms == [] then position else Some(Advance(AdvanceAll(position, ms[..|ms| - 1]), ms[|ms| - 1]))
  }

  /** Any sequence of updates ends at the lexicographic maximum of the start and the messages read. */
  lemma {:induction false} EndsAtMaximum(position: Option<Message>, ms: seq<Message>)
    ensures
      var r := AdvanceAll(position, ms);
      && (r.None? <==> position.None? && ms == [])
      && (r.Some? ==> (r == position || r.value in ms)
                      && (forall m :: m in ms ==> !Before(At(r.value), At(m)))
                      && (position.Some? ==> !Before(At(r.value), At(position.value))))
  {
    if ms != [] {
      var init := ms[..|ms| - 1];
      assert ms == init + [ms[|ms| - 1]];
      EndsAtMaximum(position, init);
    }
  }

  /** Hence the order of the updates is irrelevant. */
  lemma {:induction false} UpdateOrderIrrelevant(position: Option<Message>, a: seq<Message>, b: seq<Message>)
    requires forall m :: m in a <==> m in b
    requires forall x, y :: (x in a || position == Some(x)) && (y in a || position == Some(y)) && x.id == y.id ==>
            x == y
    ensures AdvanceAll(position, a) == AdvanceAll(position, b)
  {
    EndsAtMaximum(position, a);
    EndsAtMaximum(position, b);
    assert a == [] <==> b == [] by {
      assert a != [] ==> a[0] in a;
      assert b != [] ==> b[0] in b;
    }
  }

  // ---- Unread counts ----

  function Count(table: seq<Message>, p: Message -> bool): nat {
    |Filter(table, p)|
  }

  predicate ByOthers(m: Message, t: TenantId, c: CaseId, u: UserId) {
    m.tenantId == t && m.caseId == c && m.authorId != u
  }

  /** What the service counts: later creation times only. */
  function Unread(table: seq<Message>, t: TenantId, c: CaseId, u: UserId, last: Message): nat {
    Count(table, (m: Message) => ByOthers(m, t, c, u) && m.createdAt > last.createdAt)
  }

  /** What lies after the position in the order of pages and positions. */
  function TrulyUnread(table: seq<Message>, t: TenantId, c: CaseId, u: UserId, last: Message): nat {
    Count(table, (m: Message) => ByOthers(m, t, c, u) && Before(At(last), At(m)))
  }

  function TiesAfter(table: seq<Message>, t: TenantId, c: CaseId, u: UserId, last: Message): nat {
    Count(table, (m: Message) => ByOthers(m, t, c, u) && m.createdAt == last.createdAt && last.id < m.id)
  }

  lemma {:induction false} CountSplits(table: seq<Message>, p: Message -> bool, q: Message -> bool, r: Message -> bool)
    requires forall m :: p(m) <==> q(m) || r(m)
    requires forall m :: !(q(m) && r(m))
    ensures Count(table, p) == Count(table, q) + Count(table, r)
  {
    if table != [] {
      var init, last := table[..|table| - 1], table[|table| - 1];
      assert table == init + [last];
      CountSplits(init, p, q, r);
      FilterSnoc(init, last, p);
      FilterSnoc(init, last, q);
      FilterSnoc(init, last, r);
    }
  }

  /** The count misses exactly the messages created in the same millisecond with a greater id. */
  lemma {:induction false} UndercountsTies(table: seq<Message>, t: TenantId, c: CaseId, u: UserId, last: Message)
    ensures TrulyUnread(table, t, c, u, last) == Unread(table, t, c, u, last) + TiesAfter(table, t, c, u, last)
  {
    CountSplits(table,
      (m: Message) => ByOthers(m, t, c, u) && Before(At(last), At(m)),
      (m: Message) => ByOthers(m, t, c, u) && m.createdAt > last.createdAt,
      (m: Message) => ByOthers(m, t, c, u) && m.createdAt == last.createdAt && last.id < m.id);
  }

  /** It does miss some: one of two messages of one millisecond, when the other has been read. */
  lemma {:induction false} TiesAreMissed(t: TenantId, c: CaseId, author: UserId, u: UserId, now: int)
    returns (table: seq<Message>, last: Message)
    requires author != u
    ensures UniqueIds(table) && last in table
    ensures Unread(table, t, c, u, last) == 0 && TrulyUnread(table, t, c, u, last) == 1
  {
    last := Message(1, t, c, author, now, None);
    var tied := Message(2, t, c, author, now, None);
    table := [last, tied];
    assert table[..1] == [last] && table[..1][..0] == [];
    FilterNone(table, (m: Message) => ByOthers(m, t, c, u) && m.createdAt > last.createdAt);
    FilterSnoc([last], tied, (m: Message) => ByOthers(m, t, c, u) && Before(At(last), At(m)));
    FilterNone([last], (m: Message) => ByOthers(m, t, c, u) && Before(At(last), At(m)));
    assert [last] + [tied] == table;
  }

  /** Reading on never raises the count. */
  lemma {:induction false} UnreadNeverRises(table: seq<Message>, t: TenantId, c: CaseId, u: UserId, last: Message,
                                            m: Message)
    ensures Unread(table, t, c, u, Advance(Some(last), m)) <= Unread(table, t, c, u, last)
  {
    var next := Advance(Some(last), m);
    CountSplits(table,
      (x: Message) => ByOthers(x, t, c, u) && x.createdAt > last.createdAt,
      (x: Message) => ByOthers(x, t, c, u) && x.createdAt > next.createdAt,
      (x: Message) => ByOthers(x, t, c, u) && last.createdAt < x.createdAt <= next.createdAt);
  }

  // ---- The services ----

  datatype MessageError = CaseNotFound | AuthorNotInTenant | ParentNotFound | InvalidMessageForCase

  /** A repeated mutation id of a tenant names one message. */
  predicate UniqueMutations(table: seq<Message>) {
    forall i, j :: 0 <= i < j < |table| && table[i].tenantId == table[j].tenantId && table[i].mutationId.Some? ==>
      table[i].mutationId != table[j].mutationId
  }

  predicate HasMutation(m: Message, t: TenantId, mutation: Option<nat>) {
    mutation.Some? && m.tenantId == t && m.mutationId == mutation
  }

  /** findUnique by id. */
  function Find(table: seq<Message>, id: nat): (r: Option<Message>)
    ensures r.Some? ==> r.value in table && r.value.id == id
    ensures r.None? ==> forall m :: m in table ==> m.id != id
  {
    if table == [] then None
    else if table[0].id == id then Some(table[0])
    else
      assert table == [table[0]] + table[1..];
      Find(table[1..], id)
  }

  // ---- The answers, told on the rows ----

  predicate IsEarlier(a: Message, b: Message) {
    a.createdAt < b.createdAt || (a.createdAt == b.createdAt && a.id < b.id)
  }

  predicate IsOf(m: Message, t: TenantId, c: CaseId) {
    m.tenantId == t && m.caseId == c
  }

  /** A page holds as many messages as asked for, but at least one and at most a hundred. */
  lemma {:induction false} PageSize(limit: int)
    ensures 1 <= limit <= 100 ==> Clamp(limit) == limit
    ensures limit < 1 ==> Clamp(limit) == 1
    ensures limit > 100 ==> Clamp(limit) == 100
  {
  }

  /** The pages together hold every message of the case and no other, latest first, the id deciding ties. */
  lemma {:induction false} PagesHold(table: seq<Message>, t: TenantId, c: CaseId, limit: int)
    requires UniqueIds(table)
    ensures
      var all := UnReversed(Follow(table, t, c, limit, None));
      && (forall m :: m in all <==> m in table && IsOf(m, t, c))
      && (forall i, j :: 0 <= i < j < |all| ==> IsEarlier(all[j], all[i]))
  {
    PagesCoverListing(table, t, c, limit, None);
    QueryDescends(table, t, c, None);
    hide UnReversed, Follow, Query;
  }

  /** The message may be on the page: it is of the case and, with a cursor, lies before it. */
  predicate MayShow(m: Message, t: TenantId, c: CaseId, cursor: Option<Cursor>) {
    && IsOf(m, t, c)
    && (cursor.Some? ==> m.createdAt < cursor.value.createdAt
                         || (m.createdAt == cursor.value.createdAt && m.id < cursor.value.id))
  }

  /** One page: the latest of the messages that may show, oldest first, no more than asked for; it says there
      is more exactly when it left some out, and points at its oldest message. */
  lemma {:induction false} PageHolds(table: seq<Message>, t: TenantId, c: CaseId, cursor: Option<Cursor>, limit: int)
    requires UniqueIds(table)
    ensures
      var page := PageOf(Query(table, t, c, cursor), Clamp(limit));
      var shown := page.messages;
      && (forall m :: m in shown ==> m in table && MayShow(m, t, c, cursor))
      && (forall i, j :: 0 <= i < j < |shown| ==> IsEarlier(shown[i], shown[j]))
      && (forall m, x :: m in table && MayShow(m, t, c, cursor) && m !in shown && x in shown ==> IsEarlier(m, x))
      && |shown| <= Clamp(limit)
      && (page.hasMore <==> exists m :: m in table && MayShow(m, t, c, cursor) && m !in shown)
      && (page.hasMore ==> |shown| == Clamp(limit)
                           && page.nextCursor == Some(Cursor(shown[0].createdAt, shown[0].id)))
      && (!page.hasMore ==> page.nextCursor == None)
  {
    var q, n := Query(table, t, c, cursor), Clamp(limit);
    QueryDescends(table, t, c, cursor);
    assert forall m :: m in q <==> m in table && MayShow(m, t, c, cursor);
    hide Query, Clamp, MayShow;
    PageOfListing(q, n);
  }

  lemma {:induction false} PageOfListing(q: seq<Message>, n: nat)
    requires Descending(q) && n > 0
    ensures
      var page := PageOf(q, n);
      var shown := page.messages;
      && (forall m :: m in shown ==> m in q)
      && (forall i, j :: 0 <= i < j < |shown| ==> IsEarlier(shown[i], shown[j]))
      && (forall m, x :: m in q && m !in shown && x in shown ==> IsEarlier(m, x))
      && |shown| <= n
      && (page.hasMore <==> exists m :: m in q && m !in shown)
      && (page.hasMore ==> |shown| == n && page.nextCursor == Some(Cursor(shown[0].createdAt, shown[0].id)))
      && (!page.hasMore ==> page.nextCursor == None)
  {
    var shown := PageOf(q, n).messages;
    var k := if |q| > n then n else |q|;
    assert forall i :: 0 <= i < k ==> shown[i] == q[k - 1 - i];
    forall m ensures m in shown <==> exists i :: 0 <= i < k && q[i] == m {
      if i :| 0 <= i < k && q[i] == m { assert shown[k - 1 - i] == m; }
    }
    if |q| > n {
      assert forall i :: 0 <= i < k ==> Before(At(q[n]), At(q[i]));
      assert q[n] in q && q[n] !in shown;
    }
    forall m, x | m in q && m !in shown && x in shown ensures IsEarlier(m, x) {
      var i :| 0 <= i < |q| && q[i] == m;
      var j :| 0 <= j < k && q[j] == x;
      assert i >= k;
    }
    hide PageOf;
  }

  /** The position moves to the message read unless that lies before it. */
  lemma {:induction false} AdvanceIs(position: Option<Message>, m: Message)
    ensures Advance(position, m)
            == if position.Some? && IsEarlier(m, position.value) then position.value else m
  {
  }

  /** Without a position all messages of others count, with one those created later than its message. */
  lemma {:induction false} UnreadIs(table: seq<Message>, t: TenantId, c: CaseId, u: UserId, last: Message)
    ensures Count(table, (m: Message) => ByOthers(m, t, c, u))
            == |set i: nat | i < |table| && IsOf(table[i], t, c) && table[i].authorId != u|
    ensures Unread(table, t, c, u, last)
            == |set i: nat | i < |table| && IsOf(table[i], t, c) && table[i].authorId != u
                             && last.createdAt < table[i].createdAt|
  {
    var others, later := (m: Message) => ByOthers(m, t, c, u),
      (m: Message) => ByOthers(m, t, c, u) && m.createdAt > last.createdAt;
    FilterCounts(table, others);
    FilterCounts(table, later);
    var ofOthers := set i: nat | i < |table| && IsOf(table[i], t, c) && table[i].authorId != u;
    var ofOthersLater :=
      set i: nat | i < |table| && IsOf(table[i], t, c) && table[i].authorId != u && last.createdAt < table[i].createdAt;
    assert Places(table, others) == ofOthers;
    assert Places(table, later) == ofOthersLater;
  }

  /** A mutation id is looked up within its tenant, and a message without one is never found. */
  lemma {:induction false} MutationIs(m: Message, t: TenantId, mutation: Option<nat>)
    ensures HasMutation(m, t, mutation) <==> m.tenantId == t && m.mutationId == mutation && m.mutationId != None
  {
  }

  /** A file attached to a message. */
  datatype Evidence = Evidence(tenantId: TenantId, messageId: nat, storageKey: string)

  function EvidenceOf(t: TenantId, id: nat, files: seq<string>): (r: seq<Evidence>)
    ensures |r| == |files|
  {
    seq(|files|, i requires 0 <= i < |files| => Evidence(t, id, files[i]))
  }

  class MessageService {
    var table: seq<Message>
    var evidence: seq<Evidence>
    var positions: map<(CaseId, UserId), nat>
    const cases: set<(TenantId, CaseId)>
    const users: set<(TenantId, UserId)>

    predicate Valid()
      reads this
    {
      UniqueIds(table) && UniqueMutations(table)
    }

    constructor (cases: set<(TenantId, CaseId)>, users: set<(TenantId, UserId)>)
      ensures Valid() && table == [] && evidence == [] && positions == map[] && this.cases == cases
              && this.users == users
    {
      this.cases, this.users := cases, users;
      table, evidence, positions := [], [], map[];
    }

    /** `id` and `now` are drawn by the database. A known mutation id returns its message and writes nothing. */
    method CreateMessage(t: TenantId, c: CaseId, author: UserId, parent: Option<nat>, mutation: Option<nat>,
                         files: seq<string>, id: nat, now: int) returns (r: Result<Message, MessageError>)
      requires Valid() && forall m :: m in table ==> m.id != id
      modifies this
      ensures Valid() && positions == old(positions)
      ensures (exists m :: m in old(table) && HasMutation(m, t, mutation)) ==>
                r.Success? && r.value in old(table) && HasMutation(r.value, t, mutation)
                && table == old(table) && evidence == old(evidence)
      ensures r.Failure? ==> table == old(table) && evidence == old(evidence)
      ensures !(exists m :: m in old(table) && HasMutation(m, t, mutation)) ==>
                (r.Success? <==> (t, c) in cases && (t, author) in users
                                 && (parent.Some? ==> exists m :: m in old(table) && m.id == parent.value
                                                                  && m.tenantId == t && m.caseId == c))
                && (r.Success? ==> r.value == Message(id, t, c, author, now, mutation))
                && (r.Success? ==>
                  table == old(table) + [r.value] && evidence == old(evidence) + EvidenceOf(t, id, files))
                && (r.Failure? ==> r.error == if (t, c) !in cases then CaseNotFound
                                              else if (t, author) !in users then AuthorNotInTenant else ParentNotFound)
    {
      if mutation.Some? {
        for i := 0 to |table|
          invariant forall k :: 0 <= k < i ==> !HasMutation(table[k], t, mutation)
        {
          if HasMutation(table[i], t, mutation) { return Success(table[i]); }
        }
      }
      if (t, c) !in cases { return Failure(CaseNotFound); }
      if (t, author) !in users { return Failure(AuthorNotInTenant); }
      if parent.Some? {
        var p := Find(table, parent.value);
        if p.None? || p.value.tenantId != t || p.value.caseId != c {
          ghost var t0 := table;
          IdsDecide(t0);
          return Failure(ParentNotFound);
        }
      }
      var m := Message(id, t, c, author, now, mutation);
      table := table + [m];
      if |files| > 0 { evidence := evidence + EvidenceOf(t, id, files); }
      r := Success(m);
    }

    method GetMessagesByCase(t: TenantId, c: CaseId, cursor: Option<Cursor>, limit: int) returns (page: Page)
      ensures page == PageOf(Query(table, t, c, cursor), Clamp(limit))
    {
      var n := Clamp(limit);
      var q := Query(table, t, c, cursor);
      var messages := if |q| > n + 1 then q[..n + 1] else q;
      var hasMore := |messages| > n;
      if hasMore { messages := messages[..|messages| - 1]; }
      assert hasMore ==> messages == q[..n];
      var nextCursor := if hasMore && |messages| > 0 then Some(At(messages[|messages| - 1])) else None;
      messages := ReverseInPlace(messages);
      page := Page(messages, nextCursor, hasMore);
    }

    method ReverseInPlace(messages: seq<Message>) returns (r: seq<Message>)
      ensures r == Reverse(messages)
    {
      r := messages;
      var n := |r|;
      for i := 0 to n / 2
        invariant |r| == n
        invariant forall k :: 0 <= k < i ==> r[k] == messages[n - 1 - k] && r[n - 1 - k] == messages[k]
        invariant forall k :: i <= k < n - i ==> r[k] == messages[k]
      {
        r := r[i := r[n - 1 - i]][n - 1 - i := r[i]];
      }
    }

    method GetUnreadCount(t: TenantId, c: CaseId, u: UserId) returns (n: nat)
      ensures (c, u) !in positions ==> n == Count(table, (m: Message) => ByOthers(m, t, c, u))
      ensures (c, u) in positions ==>
                var last := Find(table, positions[(c, u)]);
                n == if last.None? then 0 else Unread(table, t, c, u, last.value)
    {
      if (c, u) !in positions { return |Filter(table, (m: Message) => ByOthers(m, t, c, u))|; }
      var last := Find(table, positions[(c, u)]);
      if last.None? { return 0; }
      n := |Filter(table, (m: Message) => ByOthers(m, t, c, u) && m.createdAt > last.value.createdAt)|;
    }

    method UpdatePosition(t: TenantId, c: CaseId, u: UserId, id: nat) returns (r: Option<MessageError>)
      requires Valid()
      modifies this
      ensures table == old(table) && evidence == old(evidence) && Valid()
      ensures
        var m := Find(table, id);
        if m.None? || m.value.caseId != c || m.value.tenantId != t
        then r == Some(InvalidMessageForCase) && positions == old(positions)
        else
          var position := if (c, u) in old(positions) then Find(table, old(positions)[(c, u)]) else None;
          r.None? && positions == old(positions)[(c, u) := Advance(position, m.value).id]
    {
      var found := Find(table, id);
      if found.None? || found.value.caseId != c || found.value.tenantId != t { return Some(InvalidMessageForCase); }
      var currentMessage := found.value;
      if (c, u) in positions {
        var previous := Find(table, positions[(c, u)]);
        if previous.Some? {
          var isBackward := currentMessage.createdAt < previous.value.createdAt
                            || (currentMessage.createdAt == previous.value.createdAt
                                && currentMessage.id < previous.value.id);
          if isBackward {
            assert positions[(c, u) := previous.value.id] == positions;
            return None;
          }
        }
      }
      positions := positions[(c, u) := currentMessage.id];
      r := None;
    }
  }

  lemma {:induction false} IdsDecide(table: seq<Message>)
    requires UniqueIds(table)
    ensures forall x, y :: x in table && y in table && x.id == y.id ==> x == y
  {
    forall x, y | x in table && y in table && x.id == y.id ensures x == y {
      var i :| 0 <= i < |table| && table[i] == x;
      var j :| 0 <= j < |table| && table[j] == y;
      assert i == j;
    }
  }
}
