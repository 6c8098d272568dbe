/** The timeline of a case: windows, deliveries, matched follow-ups and the gaps left by the schedule. */
module Timeline {
  import opened Common

  const DAY_MS := 86400000
  const SCHEDULE_DAYS: seq<int> := [30, 90, 180]
  const WINDOW_DAYS := 14

  datatype EntryType = DeliveryRecorded | FollowupRecorded | WindowOpened | WindowClosed | OtherEntry

  /** Where something was delivered: nothing, a text, a record of names, or something else. */
  datatype Location =
    | NoLocation
    | PlainLocation(text: string)
    | NamedLocation(community: Option<string>, name: Option<string>, region: Option<string>)
    | OtherLocation

  /** A ledger entry with the payload fields the timeline reads; a missing field is "", 0 or None. */
  datatype Entry = Entry(
    eventType: EntryType,
    ts: int,
    deliveryId: string,
    followupId: string,
    windowId: string,
    expectedDays: int,
    title: Option<string>,
    itemTypes: nat,
    location: Location,
    kind: string
  )

  /** Always names a place: the community, else the name, else the region, else just "community". */
  function NormalizeLocation(l: Location): (r: string)
    ensures r == "" ==> l.NamedLocation? && (l.community == Some("") || l.name == Some("") || l.region == Some(""))
  {
    match l
    case PlainLocation(text) => if text == "" then "community" else text
    case NamedLocation(community, name, region) =>
      if community.Some? then community.value
      else if name.Some? then name.value
      else if region.Some? then region.value
      else "community"
    case _ => "community"
  }

  /** A place given as a text is that text; of the names given, the community comes before the name and the name
      before the region; without any it is the word "community". */
  lemma {:induction false} PlaceIs(l: Location)
    ensures l.PlainLocation? && l.text != "" ==> NormalizeLocation(l) == l.text
    ensures l.NamedLocation? && [l.community, l.name, l.region] != [None, None, None] ==>
              exists k :: 0 <= k < 3 && [l.community, l.name, l.region][k] == Some(NormalizeLocation(l))
                          && forall j :: 0 <= j < k ==> [l.community, l.name, l.region][j] == None
    ensures l == NoLocation || l == PlainLocation("") || l == NamedLocation(None, None, None) ==>
              NormalizeLocation(l) == "community"
  {
    if l.NamedLocation? {
      var given := [l.community, l.name, l.region];
      assert given[0] == l.community && given[1] == l.name && given[2] == l.region;
    }
  }

  datatype WindowStatus = Open | Closed | Expired

  datatype Item =
    | DeliveryItem(at: int, deliveryId: string, itemTypes: nat, place: string)
    | FollowupItem(at: int, followupId: string, kind: string, deliveryId: string)
    | GapItem(at: int, deliveryId: string, days: int, missing: bool)
    | WindowItem(at: int, closesAt: int, title: string, status: WindowStatus)

  // ---- Matching follow-ups to the schedule ----

  function Slot(deliveryTime: int, i: nat): int
    requires i < |SCHEDULE_DAYS|
  {
    deliveryTime + SCHEDULE_DAYS[i] * DAY_MS
  }

  /** The follow-up lies within fourteen days of the slot. */
  predicate Covers(f: Entry, slot: int) {
    slot - WINDOW_DAYS * DAY_MS <= f.ts <= slot + WINDOW_DAYS * DAY_MS
  }

  predicate Matches(f: Entry, slot: int, used: set<string>) {
    f.followupId != "" && f.followupId !in used && Covers(f, slot)
  }

  /** find: the first follow-up that matches. */
  function FirstMatch(related: seq<Entry>, slot: int, used: set<string>): (r: Option<Entry>)
    ensures r.Some? ==> r.value in related && Matches(r.value, slot, used)
    ensures r.None? ==> forall f :: f in related ==> !Matches(f, slot, used)
  {
    if related == [] then None
    else if Matches(related[0], slot, used) then Some(related[0])
    else
      assert related == [related[0]] + related[1..];
      FirstMatch(related[1..], slot, used)
  }

  /** The greedy pass from slot `i` on: the slots left without a follow-up. */
  function Gaps(related: seq<Entry>, deliveryTime: int, i: nat, used: set<string>): (r: seq<nat>)
    requires i <= |SCHEDULE_DAYS|
    ensures forall a :: 0 <= a < |r| ==> i <= r[a] < |SCHEDULE_DAYS|
    ensures forall a, b :: 0 <= a < b < |r| ==> r[a] < r[b]
    decreases |SCHEDULE_DAYS| - i
  {
    if i == |SCHEDULE_DAYS| then []
    else
      var matched := FirstMatch(related, Slot(deliveryTime, i), used);
      if matched.Some? then Gaps(related, deliveryTime, i + 1, used + {matched.value.followupId})
      else [i] + Gaps(related, deliveryTime, i + 1, used)
  }

  lemma {:induction false} GapsStep(related: seq<Entry>, deliveryTime: int, i: nat, used: set<string>)
    requires i < |SCHEDULE_DAYS|
    ensures
      var matched := FirstMatch(related, Slot(deliveryTime, i), used);
      Gaps(related, deliveryTime, i, used) ==
      if matched.Some? then Gaps(related, deliveryTime, i + 1, used + {matched.value.followupId})
      else [i] + Gaps(related, deliveryTime, i + 1, used)
  {
  }

  lemma {:induction false} NoSlotLeft(related: seq<Entry>, deliveryTime: int, used: set<string>)
    ensures Gaps(related, deliveryTime, |SCHEDULE_DAYS|, used) == []
  {
  }

  predicate DistinctIds(fs: seq<Entry>) {
    && (forall i :: 0 <= i < |fs| ==> fs[i].followupId != "")
    && (forall i, j :: 0 <= i < j < |fs| ==> fs[i].followupId != fs[j].followupId)
  }

  /** No follow-up can serve two slots. */
  lemma {:induction false} SlotsAreApart(f: Entry, deliveryTime: int, i: nat, j: nat)
    requires i < j < |SCHEDULE_DAYS|
    ensures !(Covers(f, Slot(deliveryTime, i)) && Covers(f, Slot(deliveryTime, j)))
  {
  }

  lemma {:induction false} IdsDecide(fs: seq<Entry>, f: Entry, g: Entry)
    requires DistinctIds(fs) && f in fs && g in fs && f.followupId == g.followupId
    ensures f == g
  {
    var i :| 0 <= i < |fs| && fs[i] == f;
    var j :| 0 <= j < |fs| && fs[j] == g;
    assert i == j;
  }

  predicate Covered(related: seq<Entry>, slot: int) {
    exists f :: f in related && Covers(f, slot)
  }

  /** Some follow-up with an id covers slot `k` whose id no follow-up has spent on an earlier slot. */
  predicate FreshlyCovered(related: seq<Entry>, deliveryTime: int, k: nat)
    requires k < |SCHEDULE_DAYS|
  {
    exists f :: f in related && Covers(f, Slot(deliveryTime, k)) && f.followupId != ""
                && forall g, j :: g in related && 0 <= j < k && g.followupId == f.followupId ==>
                  !Covers(g, Slot(deliveryTime, j))
  }

  /** With distinct ids every covered slot is freshly covered, for no follow-up covers two slots. */
  lemma {:induction false} DistinctIdsAreFresh(related: seq<Entry>, deliveryTime: int, k: nat)
    requires DistinctIds(related) && k < |SCHEDULE_DAYS| && Covered(related, Slot(deliveryTime, k))
    ensures FreshlyCovered(related, deliveryTime, k)
  {
    var f :| f in related && Covers(f, Slot(deliveryTime, k));
    forall g, j | g in related && 0 <= j < k && g.followupId == f.followupId ensures !Covers(g, Slot(deliveryTime, j)) {
      IdsDecide(related, f, g);
      SlotsAreApart(f, deliveryTime, j, k);
    }
  }

  /** In whatever order the follow-ups are listed, a slot that is freshly covered if covered at all is left as
      a gap by the pass from slot `i` exactly if it is not covered: the ids used so far belong to follow-ups
      of earlier slots. Distinct ids are enough for that, and repeated ones do no harm within a slot. */
  lemma {:induction false} GapIffUncovered(related: seq<Entry>, deliveryTime: int, i: nat, used: set<string>, k: nat)
    requires i <= k < |SCHEDULE_DAYS|
    requires Covered(related, Slot(deliveryTime, k)) ==> FreshlyCovered(related, deliveryTime, k)
    requires forall id :: id in used ==>
               exists g, j :: g in related && 0 <= j < i && g.followupId == id && Covers(g, Slot(deliveryTime, j))
    ensures k in Gaps(related, deliveryTime, i, used) <==> !Covered(related, Slot(deliveryTime, k))
    decreases |SCHEDULE_DAYS| - i
  {
    GapsStep(related, deliveryTime, i, used);
    hide Gaps, Slot, Covers, FirstMatch, Matches, Covered, FreshlyCovered;
    var matched := FirstMatch(related, Slot(deliveryTime, i), used);
    if k == i {
      if Covered(related, Slot(deliveryTime, k)) {
        FreshMatches(related, deliveryTime, k, used);
      } else {
        NothingMatches(related, Slot(deliveryTime, k), used);
      }
    } else if matched.Some? {
      MatchCovers(related, deliveryTime, i, used);
      GapIffUncovered(related, deliveryTime, i + 1, used + {matched.value.followupId}, k);
    } else {
      GapIffUncovered(related, deliveryTime, i + 1, used, k);
    }
  }

  lemma {:induction false} FreshMatches(related: seq<Entry>, deliveryTime: int, k: nat, used: set<string>)
    requires k < |SCHEDULE_DAYS| && FreshlyCovered(related, deliveryTime, k)
    requires forall id :: id in used ==>
               exists g, j :: g in related && 0 <= j < k && g.followupId == id && Covers(g, Slot(deliveryTime, j))
    ensures FirstMatch(related, Slot(deliveryTime, k), used).Some?
  {
    hide Covers, Slot, FirstMatch;
    var f :| f in related && Covers(f, Slot(deliveryTime, k)) && f.followupId != ""
             && forall g, j :: g in related && 0 <= j < k && g.followupId == f.followupId ==>
                  !Covers(g, Slot(deliveryTime, j));
    assert f.followupId !in used;
    assert Matches(f, Slot(deliveryTime, k), used);
  }

  lemma {:induction false} NothingMatches(related: seq<Entry>, slot: int, used: set<string>)
    requires !Covered(related, slot)
    ensures FirstMatch(related, slot, used).None?
  {
    hide Covers, FirstMatch;
  }

  lemma {:induction false} MatchCovers(related: seq<Entry>, deliveryTime: int, i: nat, used: set<string>)
    requires i < |SCHEDULE_DAYS| && FirstMatch(related, Slot(deliveryTime, i), used).Some?
    ensures
      var f := FirstMatch(related, Slot(deliveryTime, i), used).value;
      f in related && Covers(f, Slot(deliveryTime, i))
  {
    hide Covers, FirstMatch, Slot;
  }

  /** A way of assigning follow-ups to slots, each inside its slot and none twice. */
  predicate IsMatching(m: map<nat, Entry>, related: seq<Entry>, deliveryTime: int) {
    && (forall i :: i in m ==> i < |SCHEDULE_DAYS| && m[i] in related && Covers(m[i], Slot(deliveryTime, i)))
    && (forall i, j :: i in m && j in m && i != j ==> m[i] != m[j])
  }

  /** The greedy pass leaves the fewest gaps possible, for such follow-ups and so for distinct ids: whatever
      it leaves open, every matching leaves open. */
  lemma {:induction false} GreedyIsOptimal(m: map<nat, Entry>, related: seq<Entry>, deliveryTime: int)
    requires IsMatching(m, related, deliveryTime)
    requires DistinctIds(related)
             || forall k :: 0 <= k < |SCHEDULE_DAYS| && Covered(related, Slot(deliveryTime, k)) ==>
                  FreshlyCovered(related, deliveryTime, k)
    ensures forall k :: k in Gaps(related, deliveryTime, 0, {}) ==> k !in m
    ensures |Gaps(related, deliveryTime, 0, {})| <= |SCHEDULE_DAYS| - |m|
  {
    var gaps := Gaps(related, deliveryTime, 0, {});
    forall k | k in gaps ensures k !in m {
      if DistinctIds(related) && Covered(related, Slot(deliveryTime, k)) {
        DistinctIdsAreFresh(related, deliveryTime, k);
      }
      GapIffUncovered(related, deliveryTime, 0, {}, k);
    }
    OpenSlots(gaps, m.Keys);
  }

  lemma {:induction false} OpenSlots(gaps: seq<nat>, filled: set<nat>)
    requires forall a :: 0 <= a < |gaps| ==> gaps[a] < |SCHEDULE_DAYS|
    requires forall a, b :: 0 <= a < b < |gaps| ==> gaps[a] < gaps[b]
    requires forall k :: k in gaps ==> k !in filled
    requires forall k :: k in filled ==> k < |SCHEDULE_DAYS|
    ensures |gaps| + |filled| <= |SCHEDULE_DAYS|
  {
    SetOfDistinct(gaps);
    assert SetOf(gaps) !! filled;
    assert |SetOf(gaps) + filled| == |gaps| + |filled|;
    var slots: set<nat> := {0, 1, 2};
    assert forall k :: k in SetOf(gaps) + filled ==> k < 3;
    SubsetSize(SetOf(gaps) + filled, slots);
  }

  /** An id spent on an earlier slot does harm: the pass can leave a gap that another assignment fills. */
  lemma {:induction false} DuplicateIdsCostAGap() returns (related: seq<Entry>, m: map<nat, Entry>)
    ensures !DistinctIds(related) && IsMatching(m, related, 0) && |m| == 2 && 0 in m && 1 in m
    ensures m[0].followupId != m[1].followupId
    ensures Covered(related, Slot(0, 1)) && !FreshlyCovered(related, 0, 1)
    ensures |Gaps(related, 0, 0, {})| == 2
  {
    var a1, b1, a2 := Followup("a", Slot(0, 0)), Followup("b", Slot(0, 0) + 1), Followup("a", Slot(0, 1));
    related := [a1, b1, a2];
    m := map[0 := b1, 1 := a2];
    assert a1 in related && b1 in related && a2 in related;
    assert Covers(a1, Slot(0, 0)) && Covers(b1, Slot(0, 0)) && Covers(a2, Slot(0, 1));
    assert related[0].followupId == related[2].followupId;
    assert forall f :: f in related && Covers(f, Slot(0, 1)) ==> f == a2;
    RepeatedIdGaps(a1, b1, a2);
    hide Gaps, Covers, Slot;
  }

  function Followup(id: string, ts: int): Entry {
    Entry(FollowupRecorded, ts, "d", id, "", 0, None, 0, NoLocation, "")
  }

  lemma {:induction false} RepeatedIdGaps(a1: Entry, b1: Entry, a2: Entry)
    requires a1.followupId == a2.followupId == "a"
    requires a1.ts == Slot(0, 0) && b1.ts == Slot(0, 0) + 1 && a2.ts == Slot(0, 1)
    ensures |Gaps([a1, b1, a2], 0, 0, {})| == 2
  {
    var related := [a1, b1, a2];
    assert FirstMatch(related, Slot(0, 0), {}) == Some(a1);
    var used: set<string> := {"a"};
    NoMatchLeft(related, Slot(0, 1), used);
    NoMatchLeft(related, Slot(0, 2), used);
    hide FirstMatch, Matches, Covers, Slot;
    NoSlotLeft(related, 0, used);
    GapsStep(related, 0, 2, used);
    GapsStep(related, 0, 1, used);
    GapsStep(related, 0, 0, {});
    assert {} + {"a"} == used;
  }

  lemma {:induction false} NoMatchLeft(related: seq<Entry>, slot: int, used: set<string>)
    requires forall f :: f in related ==> !Matches(f, slot, used)
    ensures FirstMatch(related, slot, used).None?
  {
  }

  // ---- Windows ----

  datatype Window = Window(id: string, openedAt: int, closesAt: int, title: string, closedAt: int)

  predicate OpensWindow(e: Entry) {
    e.eventType == WindowOpened && e.windowId != "" && e.expectedDays != 0
  }

  function WindowOf(e: Entry): Window {
    Window(e.windowId, e.ts, e.ts + e.expectedDays * DAY_MS, if e.title.Some? then e.title.value else "window", 0)
  }

  /** Map.set: an existing key keeps its place. */
  function Put(ws: seq<Window>, w: Window): (r: seq<Window>)
    ensures |r| == |ws| + if exists i :: 0 <= i < |ws| && ws[i].id == w.id then 0 else 1
  {
    if ws == [] then [w]
    else if ws[0].id == w.id then [w] + ws[1..]
    else
      assert (exists i :: 0 <= i < |ws| && ws[i].id == w.id) <==>
        (exists i :: 0 <= i < |ws[1..]| && ws[1..][i].id == w.id) by {
        if exists i :: 0 <= i < |ws| && ws[i].id == w.id {
          var i :| 0 <= i < |ws| && ws[i].id == w.id;
          assert ws[1..][i - 1].id == w.id;
        }
      }
      [ws[0]] + Put(ws[1..], w)
  }

  function Close(ws: seq<Window>, id: string, ts: int): (r: seq<Window>)
    ensures |r| == |ws|
  {
    if ws == [] then []
    else if ws[0].id == id then [ws[0].(closedAt := ts)] + ws[1..]
    else [ws[0]] + Close(ws[1..], id, ts)
  }

  function Opened(entries: seq<Entry>): seq<Window> {
    if entries == [] then []
    else
      var e := entries[|entries| - 1];
      if OpensWindow(e) then Put(Opened(entries[..|entries| - 1]), WindowOf(e)) else Opened(entries[..|entries| - 1])
  }

  function ClosedBy(ws: seq<Window>, entries: seq<Entry>): seq<Window> {
    if entries == [] then ws
    else
      var e := entries[|entries| - 1];
      if e.eventType == WindowClosed then Close(ClosedBy(ws, entries[..|entries| - 1]), e.windowId, e.ts)
      else ClosedBy(ws, entries[..|entries| - 1])
  }

  function StatusAt(w: Window, now: int): WindowStatus {
    if w.closedAt != 0 then Closed else if now > w.closesAt then Expired else Open
  }

  function ItemOf(w: Window, now: int): Item {
    WindowItem(w.openedAt, w.closesAt, w.title, StatusAt(w, now))
  }

  /** The last entry of a kind for a window id. */
  function LastOpening(entries: seq<Entry>, id: string): Option<Entry> {
    if entries == [] then None
    else
      var e := entries[|entries| - 1];
      if OpensWindow(e) && e.windowId == id then Some(e) else LastOpening(entries[..|entries| - 1], id)
  }

  function LastClosing(entries: seq<Entry>, id: string): int {
    if entries == [] then 0
    else
      var e := entries[|entries| - 1];
      if e.eventType == WindowClosed && e.windowId == id then e.ts else LastClosing(entries[..|entries| - 1], id)
  }

  predicate DistinctWindows(ws: seq<Window>) {
    forall i, j :: 0 <= i < j < |ws| ==> ws[i].id != ws[j].id
  }

  lemma {:induction false} PutFacts(ws: seq<Window>, w: Window)
    requires DistinctWindows(ws)
    ensures DistinctWindows(Put(ws, w)) && w in Put(ws, w)
    ensures forall x :: x in Put(ws, w) <==> x == w || (x in ws && x.id != w.id)
  {
    if ws != [] {
      if ws[0].id == w.id {
        assert Put(ws, w) == [w] + ws[1..];
        forall x ensures x in Put(ws, w) <==> x == w || (x in ws && x.id != w.id) {
          assert ws == [ws[0]] + ws[1..];
          if x in ws[1..] { var j :| 0 <= j < |ws[1..]| && ws[1..][j] == x; assert ws[j + 1] == x; }
        }
      } else {
        PutFacts(ws[1..], w);
        var rest := Put(ws[1..], w);
        assert ws == [ws[0]] + ws[1..];
        forall j | 0 <= j < |rest| ensures rest[j].id != ws[0].id {
          assert rest[j] in rest;
          if rest[j] != w {
            var k :| 0 <= k < |ws[1..]| && ws[1..][k] == rest[j];
            assert ws[k + 1] == rest[j];
          }
        }
      }
    }
  }

  lemma {:induction false} CloseFacts(ws: seq<Window>, id: string, ts: int)
    requires DistinctWindows(ws)
    ensures forall i :: 0 <= i < |ws| ==>
            Close(ws, id, ts)[i] == if ws[i].id == id then ws[i].(closedAt := ts) else ws[i]
    ensures DistinctWindows(Close(ws, id, ts))
  {
    if ws != [] && ws[0].id != id {
      CloseFacts(ws[1..], id, ts);
    }
  }

  /** One window per id that was ever validly opened, as its last opening describes it. */
  lemma {:induction false} OpenedWindows(entries: seq<Entry>)
    ensures DistinctWindows(Opened(entries))
    ensures forall w :: w in Opened(entries) <==>
              LastOpening(entries, w.id).Some? && w == WindowOf(LastOpening(entries, w.id).value)
  {
    if entries != [] {
      var before, e := entries[..|entries| - 1], entries[|entries| - 1];
      OpenedWindows(before);
      if OpensWindow(e) { PutFacts(Opened(before), WindowOf(e)); }
      LastOpeningNames(before);
    }
  }

  lemma {:induction false} LastOpeningNames(entries: seq<Entry>)
    ensures forall id :: LastOpening(entries, id).Some? ==> LastOpening(entries, id).value.windowId == id
  {
    if entries != [] { LastOpeningNames(entries[..|entries| - 1]); }
  }

  /** Closing sets nothing but the closing time, to that of the last closing recorded for the id. */
  lemma {:induction false} ClosedWindows(ws: seq<Window>, entries: seq<Entry>)
    requires DistinctWindows(ws) && forall i :: 0 <= i < |ws| ==> ws[i].closedAt == 0
    ensures |ClosedBy(ws, entries)| == |ws|
    ensures DistinctWindows(ClosedBy(ws, entries))
    ensures forall i :: 0 <= i < |ws| ==> ClosedBy(ws, entries)[i] == ws[i].(closedAt := LastClosing(entries, ws[i].id))
    decreases |entries|
  {
    if entries != [] {
      var before, e := entries[..|entries| - 1], entries[|entries| - 1];
      ClosedWindows(ws, before);
      if e.eventType == WindowClosed { CloseFacts(ClosedBy(ws, before), e.windowId, e.ts); }
    }
  }

  // ---- The whole timeline ----

  function OfType(entries: seq<Entry>, t: EntryType): seq<Entry> {
    Filter(entries, (e: Entry) => e.eventType == t)
  }

  function InsertByTs(e: Entry, es: seq<Entry>): (r: seq<Entry>)
    ensures multiset(r) == multiset(es) + multiset{e}
  {
    if es == [] || es[|es| - 1].ts <= e.ts then es + [e]
    else
      assert es == es[..|es| - 1] + [es[|es| - 1]];
      InsertByTs(e, es[..|es| - 1]) + [es[|es| - 1]]
  }

  /** A stable sort by ts. */
  function ByTs(es: seq<Entry>): (r: seq<Entry>)
    ensures multiset(r) == multiset(es)
  {
    if es == [] then []
    else
      assert es == es[..|es| - 1] + [es[|es| - 1]];
      InsertByTs(es[|es| - 1], ByTs(es[..|es| - 1]))
  }

  function InsertByTime(x: Item, items: seq<Item>): (r: seq<Item>)
    ensures multiset(r) == multiset(items) + multiset{x}
  {
    if items == [] || items[|items| - 1].at <= x.at then items + [x]
    else
      assert items == items[..|items| - 1] + [items[|items| - 1]];
      InsertByTime(x, items[..|items| - 1]) + [items[|items| - 1]]
  }

  /** A stable sort by displayed time. */
  function ByTime(items: seq<Item>): (r: seq<Item>)
    ensures multiset(r) == multiset(items)
  {
    if items == [] then []
    else
      assert items == items[..|items| - 1] + [items[|items| - 1]];
      InsertByTime(items[|items| - 1], ByTime(items[..|items| - 1]))
  }

  predicate TimeOrdered(items: seq<Item>) {
    forall i, j :: 0 <= i < j < |items| ==> items[i].at <= items[j].at
  }

  lemma {:induction false} InsertKeepsOrder(x: Item, items: seq<Item>)
    requires TimeOrdered(items)
    ensures TimeOrdered(InsertByTime(x, items))
  {
    if items != [] && items[|items| - 1].at > x.at {
      var init, last := items[..|items| - 1], items[|items| - 1];
      InsertKeepsOrder(x, init);
      var r := InsertByTime(x, init);
      assert InsertByTime(x, items) == r + [last];
      hide InsertByTime;
      forall j | 0 <= j < |r| ensures r[j].at <= last.at {
        assert r[j] in multiset(r);
        if r[j] != x { assert r[j] in init; }
      }
    }
  }

  lemma {:induction false} ByTimeOrders(items: seq<Item>)
    ensures TimeOrdered(ByTime(items)) && |ByTime(items)| == |items|
  {
    if items != [] {
      ByTimeOrders(items[..|items| - 1]);
      InsertKeepsOrder(items[|items| - 1], ByTime(items[..|items| - 1]));
    }
    assert |multiset(ByTime(items))| == |ByTime(items)| && |multiset(items)| == |items|;
  }

  /** The sort is stable: items with one displayed time keep their order. */
  lemma {:induction false} ByTimeIsStable(items: seq<Item>, at: int)
    ensures Filter(ByTime(items), (x: Item) => x.at == at) == Filter(items, (x: Item) => x.at == at)
  {
    if items != [] {
      var init, last := items[..|items| - 1], items[|items| - 1];
      assert items == init + [last];
      ByTimeIsStable(init, at);
      InsertIsStable(last, ByTime(init), at);
      FilterSnoc(init, last, (x: Item) => x.at == at);
    }
  }

  lemma {:induction false} InsertIsStable(x: Item, items: seq<Item>, at: int)
    ensures Filter(InsertByTime(x, items), (y: Item) => y.at == at)
            == Filter(items + [x], (y: Item) => y.at == at)
  {
    var p := (y: Item) => y.at == at;
    FilterSnoc(items, x, p);
    if items != [] && items[|items| - 1].at > x.at {
      var init, last := items[..|items| - 1], items[|items| - 1];
      assert items == init + [last];
      InsertIsStable(x, init, at);
      FilterSnoc(init, x, p);
      FilterSnoc(init, last, p);
      FilterSnoc(InsertByTime(x, init), last, p);
    }
  }

  /** Deliveries and follow-ups are sorted by ts first, and stably. */
  lemma {:induction false} ByTsIsStable(es: seq<Entry>, ts: int)
    ensures Filter(ByTs(es), (e: Entry) => e.ts == ts) == Filter(es, (e: Entry) => e.ts == ts)
  {
    if es != [] {
      var init, last := es[..|es| - 1], es[|es| - 1];
      assert es == init + [last];
      ByTsIsStable(init, ts);
      InsertByTsIsStable(last, ByTs(init), ts);
      FilterSnoc(init, last, (e: Entry) => e.ts == ts);
    }
  }

  lemma {:induction false} InsertByTsIsStable(x: Entry, es: seq<Entry>, ts: int)
    ensures Filter(InsertByTs(x, es), (e: Entry) => e.ts == ts) == Filter(es + [x], (e: Entry) => e.ts == ts)
  {
    var p := (e: Entry) => e.ts == ts;
    FilterSnoc(es, x, p);
    if es != [] && es[|es| - 1].ts > x.ts {
      var init, last := es[..|es| - 1], es[|es| - 1];
      assert es == init + [last];
      InsertByTsIsStable(x, init, ts);
      FilterSnoc(init, x, p);
      FilterSnoc(init, last, p);
      FilterSnoc(InsertByTs(x, init), last, p);
    }
  }

  lemma {:induction false} InsertByTsOrders(x: Entry, es: seq<Entry>)
    requires forall i, j :: 0 <= i < j < |es| ==> es[i].ts <= es[j].ts
    ensures forall i, j :: 0 <= i < j < |es| + 1 && j < |InsertByTs(x, es)| ==>
              InsertByTs(x, es)[i].ts <= InsertByTs(x, es)[j].ts
  {
    if es != [] && es[|es| - 1].ts > x.ts {
      var init, last := es[..|es| - 1], es[|es| - 1];
      InsertByTsOrders(x, init);
      var r := InsertByTs(x, init);
      assert |multiset(r)| == |r| && |multiset(init)| == |init|;
      forall j | 0 <= j < |r| ensures r[j].ts <= last.ts {
        assert r[j] in multiset(r);
        if r[j] != x { assert r[j] in init; }
      }
    }
  }

  lemma {:induction false} ByTsOrders(es: seq<Entry>)
    ensures |ByTs(es)| == |es|
    ensures forall i, j :: 0 <= i < j < |es| ==> ByTs(es)[i].ts <= ByTs(es)[j].ts
  {
    if es != [] {
      ByTsOrders(es[..|es| - 1]);
      InsertByTsOrders(es[|es| - 1], ByTs(es[..|es| - 1]));
    }
    assert |multiset(ByTs(es))| == |ByTs(es)| && |multiset(es)| == |es|;
  }

  function Related(followups: seq<Entry>, deliveryId: string): seq<Entry> {
    Filter(followups, (f: Entry) => f.deliveryId == deliveryId)
  }

  function GapItemAt(d: Entry, i: nat, now: int): Item
    requires i < |SCHEDULE_DAYS|
  {
    GapItem(Slot(d.ts, i), d.deliveryId, SCHEDULE_DAYS[i], Slot(d.ts, i) <= now)
  }

  function GapItems(d: Entry, gaps: seq<nat>, now: int): (r: seq<Item>)
    requires forall a :: 0 <= a < |gaps| ==> gaps[a] < |SCHEDULE_DAYS|
    ensures |r| == |gaps|
  {
    seq(|gaps|, i requires 0 <= i < |gaps| => GapItemAt(d, gaps[i], now))
  }

  function FollowupItems(related: seq<Entry>): (r: seq<Item>)
    ensures |r| == |related|
  {
    seq(|related|, i requires 0 <= i < |related| =>
      FollowupItem(related[i].ts, related[i].followupId, related[i].kind, related[i].deliveryId))
  }

  function DeliveryItemOf(d: Entry): Item {
    DeliveryItem(d.ts, d.deliveryId, d.itemTypes, NormalizeLocation(d.location))
  }

  function DeliveryItems(d: Entry, followups: seq<Entry>, now: int): seq<Item> {
    var related := Related(followups, d.deliveryId);
    [DeliveryItemOf(d)] + GapItems(d, Gaps(related, d.ts, 0, {}), now) + FollowupItems(related)
  }

  function AllDeliveryItems(deliveries: seq<Entry>, followups: seq<Entry>, now: int): seq<Item> {
    if deliveries == [] then []
    else AllDeliveryItems(deliveries[..|deliveries| - 1], followups, now)
         + DeliveryItems(deliveries[|deliveries| - 1], followups, now)
  }

  function WindowItems(ws: seq<Window>, now: int): (r: seq<Item>)
    ensures |r| == |ws|
  {
    seq(|ws|, i requires 0 <= i < |ws| => ItemOf(ws[i], now))
  }

  function AllItems(entries: seq<Entry>, now: int): seq<Item> {
    WindowItems(ClosedBy(Opened(entries), entries), now)
    + AllDeliveryItems(ByTs(OfType(entries, DeliveryRecorded)), ByTs(OfType(entries, FollowupRecorded)), now)
  }

  function GapTotal(deliveries: seq<Entry>, followups: seq<Entry>): nat {
    if deliveries == [] then 0
    else GapTotal(deliveries[..|deliveries| - 1], followups)
         + |Gaps(Related(followups, deliveries[|deliveries| - 1].deliveryId), deliveries[|deliveries| - 1].ts, 0, {})|
  }

  function RelatedTotal(deliveries: seq<Entry>, followups: seq<Entry>): nat {
    if deliveries == [] then 0
    else RelatedTotal(deliveries[..|deliveries| - 1], followups)
         + |Related(followups, deliveries[|deliveries| - 1].deliveryId)|
  }

  lemma {:induction false} DeliveryItemCount(deliveries: seq<Entry>, followups: seq<Entry>, now: int)
    ensures |AllDeliveryItems(deliveries, followups, now)|
            == |deliveries| + GapTotal(deliveries, followups) + RelatedTotal(deliveries, followups)
    decreases |deliveries|
  {
    if deliveries != [] { DeliveryItemCount(deliveries[..|deliveries| - 1], followups, now); }
  }

  datatype Counts = Counts(deliveries: nat, followups: nat, gaps: nat, missingGaps: nat, upcomingGaps: nat)

  predicate IsGap(x: Item) { x.GapItem? }
  predicate IsMissing(x: Item) { x.GapItem? && x.missing }

  /** The timeline is the time-ordered rearrangement of all items, and its length adds up: windows,
      deliveries, gaps, and each follow-up once for every delivery it relates to. */
  lemma {:induction false} TimelineShape(entries: seq<Entry>, now: int)
    ensures
      var (timeline, deliveries, followups) := (ByTime(AllItems(entries, now)),
        ByTs(OfType(entries, DeliveryRecorded)), ByTs(OfType(entries, FollowupRecorded)));
      && TimeOrdered(timeline) && multiset(timeline) == multiset(AllItems(entries, now))
      && |timeline| == |Opened(entries)| + |deliveries| + GapTotal(deliveries, followups)
          + RelatedTotal(deliveries, followups)
  {
    ByTimeOrders(AllItems(entries, now));
    DeliveryItemCount(ByTs(OfType(entries, DeliveryRecorded)), ByTs(OfType(entries, FollowupRecorded)), now);
    OpenedWindows(entries);
    OpenedUnclosed(entries);
    ClosedWindows(Opened(entries), entries);
  }

  lemma {:induction false} OpenedUnclosed(entries: seq<Entry>)
    ensures forall i :: 0 <= i < |Opened(entries)| ==> Opened(entries)[i].closedAt == 0
  {
    OpenedWindows(entries);
    forall i | 0 <= i < |Opened(entries)| ensures Opened(entries)[i].closedAt == 0 {
      assert Opened(entries)[i] in Opened(entries);
    }
  }

  /** The reported number of gaps is the number of slots the greedy passes leave open. */
  lemma {:induction false} GapsAreCounted(entries: seq<Entry>, now: int)
    ensures |Filter(ByTime(AllItems(entries, now)), IsGap)|
            == GapTotal(ByTs(OfType(entries, DeliveryRecorded)), ByTs(OfType(entries, FollowupRecorded)))
  {
    var windows := WindowItems(ClosedBy(Opened(entries), entries), now);
    var deliveries, followups := ByTs(OfType(entries, DeliveryRecorded)), ByTs(OfType(entries, FollowupRecorded));
    assert AllItems(entries, now) == windows + AllDeliveryItems(deliveries, followups, now);
    NoGapsAmongWindows(ClosedBy(Opened(entries), entries), now);
    hide *;
    SortKeepsCount(AllItems(entries, now), IsGap);
    FilterConcat(windows, AllDeliveryItems(deliveries, followups, now), IsGap);
    DeliveryGaps(deliveries, followups, now);
  }

  lemma {:induction false} NoGapsAmongWindows(ws: seq<Window>, now: int)
    ensures Filter(WindowItems(ws, now), IsGap) == []
  {
    FilterNone(WindowItems(ws, now), IsGap);
  }

  lemma {:induction false} SortKeepsCount(items: seq<Item>, p: Item -> bool)
    ensures |Filter(ByTime(items), p)| == |Filter(items, p)|
  {
    if items != [] {
      var init, last := items[..|items| - 1], items[|items| - 1];
      assert items == init + [last];
      SortKeepsCount(init, p);
      InsertKeepsCount(last, ByTime(init), p);
      FilterSnoc(init, last, p);
    }
  }

  lemma {:induction false} InsertKeepsCount(x: Item, items: seq<Item>, p: Item -> bool)
    ensures |Filter(InsertByTime(x, items), p)| == |Filter(items, p)| + if p(x) then 1 else 0
  {
    FilterSnoc(items, x, p);
    if items != [] && items[|items| - 1].at > x.at {
      var init, last := items[..|items| - 1], items[|items| - 1];
      assert items == init + [last];
      InsertKeepsCount(x, init, p);
      FilterSnoc(init, last, p);
      FilterSnoc(InsertByTime(x, init), last, p);
    }
  }

  lemma {:induction false} DeliveryGaps(deliveries: seq<Entry>, followups: seq<Entry>, now: int)
    ensures |Filter(AllDeliveryItems(deliveries, followups, now), IsGap)| == GapTotal(deliveries, followups)
    decreases |deliveries|
  {
    if deliveries != [] {
      var init, d := deliveries[..|deliveries| - 1], deliveries[|deliveries| - 1];
      DeliveryGaps(init, followups, now);
      FilterConcat(AllDeliveryItems(init, followups, now), DeliveryItems(d, followups, now), IsGap);
      OneDeliveryGaps(d, followups, now);
    }
  }

  lemma {:induction false} OneDeliveryGaps(d: Entry, followups: seq<Entry>, now: int)
    ensures |Filter(DeliveryItems(d, followups, now), IsGap)| == |Gaps(Related(followups, d.deliveryId), d.ts, 0, {})|
  {
    hide Gaps, Related, Slot, Filter;
    var related := Related(followups, d.deliveryId);
    var head, gaps, tail := [DeliveryItemOf(d)], GapItems(d, Gaps(related, d.ts, 0, {}), now), FollowupItems(related);
    FilterNone(head, IsGap);
    FilterNone(tail, IsGap);
    FilterAll(gaps, IsGap);
    MiddlePart(head, gaps, tail, IsGap);
  }

  lemma {:induction false} MiddlePart(head: seq<Item>, middle: seq<Item>, tail: seq<Item>, p: Item -> bool)
    requires Filter(head, p) == [] && Filter(middle, p) == middle && Filter(tail, p) == []
    ensures Filter(head + middle + tail, p) == middle
  {
    hide *;
    FilterConcat(head + middle, tail, p);
    FilterConcat(head, middle, p);
  }

  // ---- What is on the timeline ----

  predicate IsEntry(entries: seq<Entry>, e: Entry, t: EntryType) {
    e in entries && e.eventType == t
  }

  lemma {:induction false} SortedEntries(entries: seq<Entry>, t: EntryType, e: Entry)
    ensures e in ByTs(OfType(entries, t)) <==> IsEntry(entries, e, t)
  {
    assert e in ByTs(OfType(entries, t)) <==> e in multiset(ByTs(OfType(entries, t)));
    assert e in OfType(entries, t) <==> e in multiset(OfType(entries, t));
    hide ByTs;
  }

  const DAYS: seq<int> := [30, 90, 180]

  /** The follow-up is recorded for the delivery and lies within fourteen days of the day that many days after it. */
  predicate IsOnTime(f: Entry, d: Entry, days: int) {
    f.deliveryId == d.deliveryId && -14 * 86400000 <= f.ts - (d.ts + days * 86400000) <= 14 * 86400000
  }

  /** The delivery waits in vain for a follow-up around that day. */
  ghost predicate Waits(entries: seq<Entry>, d: Entry, days: int) {
    forall f :: IsEntry(entries, f, FollowupRecorded) ==> !IsOnTime(f, d, days)
  }

  /** Some on-time follow-up of the delivery has an id that none on time for an earlier day shares. */
  ghost predicate HasOwnFollowup(entries: seq<Entry>, d: Entry, k: nat)
    requires k < 3
  {
    exists f :: IsEntry(entries, f, FollowupRecorded) && IsOnTime(f, d, DAYS[k]) && f.followupId != ""
                && forall g, j ::
                     IsEntry(entries, g, FollowupRecorded) && 0 <= j < k && g.followupId == f.followupId ==>
                       !IsOnTime(g, d, DAYS[j])
  }

  ghost predicate OwnFollowups(entries: seq<Entry>) {
    forall d, k :: IsEntry(entries, d, DeliveryRecorded) && 0 <= k < 3 ==>
      Waits(entries, d, DAYS[k]) || HasOwnFollowup(entries, d, k)
  }

  lemma {:induction false} CoversIs(f: Entry, d: Entry, k: nat)
    requires k < 3 && f.deliveryId == d.deliveryId
    ensures |SCHEDULE_DAYS| == 3 && SCHEDULE_DAYS[k] == DAYS[k] && Slot(d.ts, k) == d.ts + DAYS[k] * 86400000
    ensures Covers(f, Slot(d.ts, k)) <==> IsOnTime(f, d, DAYS[k])
  {
  }

  lemma {:induction false} RelatedAre(entries: seq<Entry>, d: Entry, f: Entry)
    ensures f in Related(ByTs(OfType(entries, FollowupRecorded)), d.deliveryId)
            <==> IsEntry(entries, f, FollowupRecorded) && f.deliveryId == d.deliveryId
  {
    SortedEntries(entries, FollowupRecorded, f);
    hide ByTs, OfType;
  }

  lemma {:induction false} CoveredIs(entries: seq<Entry>, d: Entry, k: nat)
    requires k < 3
    ensures |SCHEDULE_DAYS| == 3
    ensures Covered(Related(ByTs(OfType(entries, FollowupRecorded)), d.deliveryId), Slot(d.ts, k))
            <==> !Waits(entries, d, DAYS[k])
  {
    var related := Related(ByTs(OfType(entries, FollowupRecorded)), d.deliveryId);
    CoversIs(d, d, k);
    forall f ensures f in related <==> IsEntry(entries, f, FollowupRecorded) && f.deliveryId == d.deliveryId {
      RelatedAre(entries, d, f);
    }
    forall f: Entry | f.deliveryId == d.deliveryId ensures Covers(f, Slot(d.ts, k)) <==> IsOnTime(f, d, DAYS[k]) {
      CoversIs(f, d, k);
    }
    hide Related, ByTs, OfType, Covers, Slot, IsEntry;
    assert forall f :: IsOnTime(f, d, DAYS[k]) ==> f.deliveryId == d.deliveryId;
    hide IsOnTime;
  }

  lemma {:induction false} OwnIsFresh(entries: seq<Entry>, d: Entry, k: nat)
    requires k < 3 && HasOwnFollowup(entries, d, k)
    ensures |SCHEDULE_DAYS| == 3
    ensures FreshlyCovered(Related(ByTs(OfType(entries, FollowupRecorded)), d.deliveryId), d.ts, k)
  {
    var related := Related(ByTs(OfType(entries, FollowupRecorded)), d.deliveryId);
    var f :| IsEntry(entries, f, FollowupRecorded) && IsOnTime(f, d, DAYS[k]) && f.followupId != ""
             && forall g, j ::
                  IsEntry(entries, g, FollowupRecorded) && 0 <= j < k && g.followupId == f.followupId ==>
                    !IsOnTime(g, d, DAYS[j]);
    CoversIs(f, d, k);
    RelatedAre(entries, d, f);
    forall g, j | g in related && 0 <= j < k && g.followupId == f.followupId ensures !Covers(g, Slot(d.ts, j)) {
      RelatedAre(entries, d, g);
      CoversIs(g, d, j);
    }
    hide Related, ByTs, OfType, Covers, Slot;
  }

  /** Day `k` of the schedule is left open exactly if the delivery waits in vain for it. */
  lemma {:induction false} OpenDays(entries: seq<Entry>, d: Entry, k: nat)
    requires OwnFollowups(entries) && IsEntry(entries, d, DeliveryRecorded) && k < 3
    ensures k in Gaps(Related(ByTs(OfType(entries, FollowupRecorded)), d.deliveryId), d.ts, 0, {})
            <==> Waits(entries, d, DAYS[k])
  {
    var related := Related(ByTs(OfType(entries, FollowupRecorded)), d.deliveryId);
    CoveredIs(entries, d, k);
    if !Waits(entries, d, DAYS[k]) { OwnIsFresh(entries, d, k); }
    hide Related, ByTs, OfType, Covers, Slot, Waits, HasOwnFollowup, Gaps, Covered, FreshlyCovered;
    GapIffUncovered(related, d.ts, 0, {}, k);
  }

  ghost predicate IsDelivery(entries: seq<Entry>, x: Item) {
    exists d :: IsEntry(entries, d, DeliveryRecorded)
                && x == DeliveryItem(d.ts, d.deliveryId, d.itemTypes, NormalizeLocation(d.location))
  }

  ghost predicate IsFollowup(entries: seq<Entry>, x: Item) {
    exists d, f :: IsEntry(entries, d, DeliveryRecorded) && IsEntry(entries, f, FollowupRecorded)
                   && f.deliveryId == d.deliveryId && x == FollowupItem(f.ts, f.followupId, f.kind, d.deliveryId)
  }

  ghost predicate IsOpenDay(entries: seq<Entry>, now: int, x: Item) {
    exists d, k :: IsEntry(entries, d, DeliveryRecorded) && 0 <= k < 3 && Waits(entries, d, DAYS[k])
                   && x == GapItem(d.ts + DAYS[k] * 86400000, d.deliveryId, DAYS[k], d.ts + DAYS[k] * 86400000 <= now)
  }

  lemma {:induction false} InDelivery(entries: seq<Entry>, d: Entry, now: int, x: Item)
    requires OwnFollowups(entries) && IsEntry(entries, d, DeliveryRecorded)
    ensures x in DeliveryItems(d, ByTs(OfType(entries, FollowupRecorded)), now) <==>
            || x == DeliveryItem(d.ts, d.deliveryId, d.itemTypes, NormalizeLocation(d.location))
            || (exists f :: IsEntry(entries, f, FollowupRecorded) && f.deliveryId == d.deliveryId
                            && x == FollowupItem(f.ts, f.followupId, f.kind, d.deliveryId))
            || (exists k :: 0 <= k < 3 && Waits(entries, d, DAYS[k])
                            && x == GapItem(d.ts + DAYS[k] * 86400000, d.deliveryId, DAYS[k],
                                            d.ts + DAYS[k] * 86400000 <= now))
  {
    var related := Related(ByTs(OfType(entries, FollowupRecorded)), d.deliveryId);
    var gaps := Gaps(related, d.ts, 0, {});
    InGapItems(entries, d, gaps, now, x);
    InFollowupItems(entries, d, x);
    assert DeliveryItems(d, ByTs(OfType(entries, FollowupRecorded)), now)
           == [DeliveryItemOf(d)] + GapItems(d, gaps, now) + FollowupItems(related);
    hide Related, ByTs, OfType, Gaps, Waits, GapItems, FollowupItems, NormalizeLocation, DeliveryItems;
  }

  lemma {:induction false} InGapItems(entries: seq<Entry>, d: Entry, gaps: seq<nat>, now: int, x: Item)
    requires OwnFollowups(entries) && IsEntry(entries, d, DeliveryRecorded)
    requires gaps == Gaps(Related(ByTs(OfType(entries, FollowupRecorded)), d.deliveryId), d.ts, 0, {})
    ensures x in GapItems(d, gaps, now) <==>
            exists k :: 0 <= k < 3 && Waits(entries, d, DAYS[k])
                        && x == GapItem(d.ts + DAYS[k] * 86400000, d.deliveryId, DAYS[k],
                                        d.ts + DAYS[k] * 86400000 <= now)
  {
    forall k: nat | k < 3 ensures k in gaps <==> Waits(entries, d, DAYS[k]) { OpenDays(entries, d, k); }
    CoversIs(d, d, 0);
    forall k: nat | k < 3
      ensures GapItemAt(d, k, now)
              == GapItem(d.ts + DAYS[k] * 86400000, d.deliveryId, DAYS[k], d.ts + DAYS[k] * 86400000 <= now)
    {
      CoversIs(d, d, k);
    }
    assert forall a :: 0 <= a < |gaps| ==> gaps[a] < 3;
    hide Gaps, Related, ByTs, OfType, Waits, GapItemAt, Slot;
    if x in GapItems(d, gaps, now) {
      var a :| 0 <= a < |gaps| && x == GapItemAt(d, gaps[a], now);
      assert gaps[a] in gaps;
    }
    if k: nat :| k < 3 && k in gaps && x == GapItemAt(d, k, now) {
      var a :| 0 <= a < |gaps| && gaps[a] == k;
      assert GapItems(d, gaps, now)[a] == x;
    }
  }

  lemma {:induction false} InFollowupItems(entries: seq<Entry>, d: Entry, x: Item)
    ensures
      var related := Related(ByTs(OfType(entries, FollowupRecorded)), d.deliveryId);
      x in FollowupItems(related) <==>
      exists f :: IsEntry(entries, f, FollowupRecorded) && f.deliveryId == d.deliveryId
                  && x == FollowupItem(f.ts, f.followupId, f.kind, d.deliveryId)
  {
    var related := Related(ByTs(OfType(entries, FollowupRecorded)), d.deliveryId);
    forall f ensures f in related <==> IsEntry(entries, f, FollowupRecorded) && f.deliveryId == d.deliveryId {
      RelatedAre(entries, d, f);
    }
    hide Related, ByTs, OfType, IsEntry;
    if x in FollowupItems(related) {
      var i :| 0 <= i < |related| && FollowupItems(related)[i] == x;
      assert related[i] in related;
    }
    if f :| f in related && x == FollowupItem(f.ts, f.followupId, f.kind, d.deliveryId) {
      var i :| 0 <= i < |related| && related[i] == f;
      assert FollowupItems(related)[i] == x;
    }
  }

  lemma {:induction false} InAllDeliveries(deliveries: seq<Entry>, followups: seq<Entry>, now: int, x: Item)
    ensures x in AllDeliveryItems(deliveries, followups, now)
            <==> exists d :: d in deliveries && x in DeliveryItems(d, followups, now)
    decreases |deliveries|
  {
    if deliveries != [] {
      var init, last := deliveries[..|deliveries| - 1], deliveries[|deliveries| - 1];
      assert deliveries == init + [last];
      assert AllDeliveryItems(deliveries, followups, now)
             == AllDeliveryItems(init, followups, now) + DeliveryItems(last, followups, now);
      hide DeliveryItems, AllDeliveryItems;
      InAllDeliveries(init, followups, now, x);
      if x in AllDeliveryItems(init, followups, now) {
        var d :| d in init && x in DeliveryItems(d, followups, now);
        assert d in deliveries;
      }
      assert last in deliveries;
    }
  }

  lemma {:induction false} DeliveryIsShown(entries: seq<Entry>, d: Entry, now: int, x: Item)
    requires OwnFollowups(entries) && IsEntry(entries, d, DeliveryRecorded)
    requires x in DeliveryItems(d, ByTs(OfType(entries, FollowupRecorded)), now)
    ensures IsDelivery(entries, x) || IsFollowup(entries, x) || IsOpenDay(entries, now, x)
  {
    hide OwnFollowups, IsEntry, DeliveryItems, Waits, NormalizeLocation, ByTs, OfType;
    InDelivery(entries, d, now, x);
  }

  lemma {:induction false} ShownByDelivery(entries: seq<Entry>, now: int, x: Item) returns (d: Entry)
    requires OwnFollowups(entries) && (IsDelivery(entries, x) || IsFollowup(entries, x) || IsOpenDay(entries, now, x))
    ensures IsEntry(entries, d, DeliveryRecorded)
    ensures x in DeliveryItems(d, ByTs(OfType(entries, FollowupRecorded)), now)
  {
    hide *;
    d := DeliveryBehind(entries, now, x);
    InDelivery(entries, d, now, x);
  }

  lemma {:induction false} DeliveryPart(entries: seq<Entry>, now: int, x: Item)
    requires OwnFollowups(entries)
    ensures x in AllDeliveryItems(ByTs(OfType(entries, DeliveryRecorded)), ByTs(OfType(entries, FollowupRecorded)), now)
            <==> IsDelivery(entries, x) || IsFollowup(entries, x) || IsOpenDay(entries, now, x)
  {
    hide *;
    var deliveries, followups := ByTs(OfType(entries, DeliveryRecorded)), ByTs(OfType(entries, FollowupRecorded));
    InAllDeliveries(deliveries, followups, now, x);
    if x in AllDeliveryItems(deliveries, followups, now) {
      var d :| d in deliveries && x in DeliveryItems(d, followups, now);
      SortedEntries(entries, DeliveryRecorded, d);
      DeliveryIsShown(entries, d, now, x);
    }
    if IsDelivery(entries, x) || IsFollowup(entries, x) || IsOpenDay(entries, now, x) {
      var d := ShownByDelivery(entries, now, x);
      SortedEntries(entries, DeliveryRecorded, d);
    }
  }

  lemma {:induction false} DeliveryBehind(entries: seq<Entry>, now: int, x: Item) returns (d: Entry)
    requires IsDelivery(entries, x) || IsFollowup(entries, x) || IsOpenDay(entries, now, x)
    ensures IsEntry(entries, d, DeliveryRecorded)
    ensures || x == DeliveryItem(d.ts, d.deliveryId, d.itemTypes, NormalizeLocation(d.location))
            || (exists f :: IsEntry(entries, f, FollowupRecorded) && f.deliveryId == d.deliveryId
                            && x == FollowupItem(f.ts, f.followupId, f.kind, d.deliveryId))
            || (exists k :: 0 <= k < 3 && Waits(entries, d, DAYS[k])
                            && x == GapItem(d.ts + DAYS[k] * 86400000, d.deliveryId, DAYS[k],
                                            d.ts + DAYS[k] * 86400000 <= now))
  {
    hide IsEntry, Waits, NormalizeLocation;
    if IsDelivery(entries, x) {
      d :| IsEntry(entries, d, DeliveryRecorded)
           && x == DeliveryItem(d.ts, d.deliveryId, d.itemTypes, NormalizeLocation(d.location));
    } else if IsFollowup(entries, x) {
      var f;
      d, f :| IsEntry(entries, d, DeliveryRecorded) && IsEntry(entries, f, FollowupRecorded)
              && f.deliveryId == d.deliveryId && x == FollowupItem(f.ts, f.followupId, f.kind, d.deliveryId);
    } else {
      var k;
      d, k :| IsEntry(entries, d, DeliveryRecorded) && 0 <= k < 3 && Waits(entries, d, DAYS[k])
              && x == GapItem(d.ts + DAYS[k] * 86400000, d.deliveryId, DAYS[k], d.ts + DAYS[k] * 86400000 <= now);
    }
  }

  /** Ids that name one follow-up each are enough. */
  lemma {:induction false} DistinctIdsAreOwn(entries: seq<Entry>)
    requires forall f :: IsEntry(entries, f, FollowupRecorded) ==> f.followupId != ""
    requires forall f, g ::
               IsEntry(entries, f, FollowupRecorded) && IsEntry(entries, g, FollowupRecorded)
               && f.followupId == g.followupId ==>
                 f == g
    ensures OwnFollowups(entries)
  {
    forall d, k | IsEntry(entries, d, DeliveryRecorded) && 0 <= k < 3
      ensures Waits(entries, d, DAYS[k]) || HasOwnFollowup(entries, d, k)
    {
      if !Waits(entries, d, DAYS[k]) {
        var f :| IsEntry(entries, f, FollowupRecorded) && IsOnTime(f, d, DAYS[k]);
        assert forall j :: 0 <= j < k ==> !IsOnTime(f, d, DAYS[j]);
      }
    }
  }

  // ---- Windows on the timeline ----

  predicate Opens(entries: seq<Entry>, i: nat, id: string)
    requires i < |entries|
  {
    entries[i].eventType == WindowOpened && entries[i].windowId == id && id != "" && entries[i].expectedDays != 0
  }

  /** The window is closed by the last closing of its id that carries a time other than 0. */
  predicate IsClosed(entries: seq<Entry>, id: string) {
    exists i :: 0 <= i < |entries| && entries[i].eventType == WindowClosed && entries[i].windowId == id
                && entries[i].ts != 0
                && forall j :: i < j < |entries| ==>
                     !(entries[j].eventType == WindowClosed && entries[j].windowId == id)
  }

  /** As its last opening describes it: open for the expected days, then expired unless it was closed. */
  predicate IsWindow(entries: seq<Entry>, now: int, x: Item) {
    exists i :: 0 <= i < |entries| && Opens(entries, i, entries[i].windowId)
                && (forall j :: i < j < |entries| ==> !Opens(entries, j, entries[i].windowId))
                && x == WindowShown(entries, i, now)
  }

  function WindowShown(entries: seq<Entry>, i: nat, now: int): Item
    requires i < |entries|
  {
    var e := entries[i];
    var closesAt := e.ts + e.expectedDays * 86400000;
    WindowItem(e.ts, closesAt, if e.title == None then "window" else e.title.value,
               if IsClosed(entries, e.windowId) then Closed else if closesAt < now then Expired else Open)
  }

  lemma {:induction false} LastOpeningIs(entries: seq<Entry>, id: string)
    ensures LastOpening(entries, id).None? ==> forall i :: 0 <= i < |entries| ==> !Opens(entries, i, id)
    ensures LastOpening(entries, id).Some? ==>
              exists i :: 0 <= i < |entries| && Opens(entries, i, id) && entries[i] == LastOpening(entries, id).value
                          && forall j :: i < j < |entries| ==> !Opens(entries, j, id)
  {
    if entries != [] {
      var before, n := entries[..|entries| - 1], |entries| - 1;
      LastOpeningIs(before, id);
      assert forall i: nat :: i < n ==> (Opens(entries, i, id) <==> Opens(before, i, id));
      assert OpensWindow(entries[n]) && entries[n].windowId == id <==> Opens(entries, n, id);
      hide Opens, OpensWindow;
      if !(OpensWindow(entries[n]) && entries[n].windowId == id) && LastOpening(before, id).Some? {
        var i :| 0 <= i < |before| && Opens(before, i, id) && before[i] == LastOpening(before, id).value
                 && forall j :: i < j < |before| ==> !Opens(before, j, id);
        assert Opens(entries, i, id) && entries[i] == before[i];
      }
    }
  }

  lemma {:induction false} LastClosingIs(entries: seq<Entry>, id: string)
    ensures LastClosing(entries, id) != 0 <==> IsClosed(entries, id)
  {
    if entries != [] {
      var before, n := entries[..|entries| - 1], |entries| - 1;
      LastClosingIs(before, id);
      if entries[n].eventType == WindowClosed && entries[n].windowId == id {
        if IsClosed(entries, id) {
          var i :| 0 <= i < |entries| && entries[i].eventType == WindowClosed && entries[i].windowId == id
                   && entries[i].ts != 0
                   && forall j :: i < j < |entries| ==>
                        !(entries[j].eventType == WindowClosed && entries[j].windowId == id);
          assert i == n;
        }
      } else {
        SameClosings(before, entries[n], id);
        assert before + [entries[n]] == entries;
      }
    }
  }

  lemma {:induction false} SameClosings(before: seq<Entry>, e: Entry, id: string)
    requires !(e.eventType == WindowClosed && e.windowId == id)
    ensures IsClosed(before + [e], id) <==> IsClosed(before, id)
  {
    var entries := before + [e];
    if IsClosed(before, id) {
      var i :| 0 <= i < |before| && before[i].eventType == WindowClosed && before[i].windowId == id && before[i].ts != 0
               && forall j :: i < j < |before| ==> !(before[j].eventType == WindowClosed && before[j].windowId == id);
      assert entries[i] == before[i];
    }
    if IsClosed(entries, id) {
      var i :| 0 <= i < |entries| && entries[i].eventType == WindowClosed && entries[i].windowId == id
               && entries[i].ts != 0
               && forall j :: i < j < |entries| ==>
                    !(entries[j].eventType == WindowClosed && entries[j].windowId == id);
      assert before[i] == entries[i];
      forall j | i < j < |before| ensures !(before[j].eventType == WindowClosed && before[j].windowId == id) {
        assert entries[j] == before[j];
      }
    }
  }

  lemma {:induction false} WindowPart(entries: seq<Entry>, now: int, x: Item)
    ensures x in WindowItems(ClosedBy(Opened(entries), entries), now) <==> IsWindow(entries, now, x)
  {
    var ws, closed := Opened(entries), ClosedBy(Opened(entries), entries);
    OpenedWindows(entries);
    OpenedUnclosed(entries);
    ClosedWindows(ws, entries);
    hide Opened, ClosedBy, DistinctWindows;
    if x in WindowItems(closed, now) {
      var a :| 0 <= a < |closed| && WindowItems(closed, now)[a] == x;
      assert ws[a] in ws;
      ShownFromOpening(entries, ws[a], now, x);
    }
    if IsWindow(entries, now, x) {
      var w := OpeningBehind(entries, now, x);
      var a :| 0 <= a < |ws| && ws[a] == w;
      assert WindowItems(closed, now)[a] == ItemOf(closed[a], now);
    }
  }

  lemma {:induction false} ShownFromOpening(entries: seq<Entry>, w: Window, now: int, x: Item)
    requires LastOpening(entries, w.id).Some? && w == WindowOf(LastOpening(entries, w.id).value)
    requires x == ItemOf(w.(closedAt := LastClosing(entries, w.id)), now)
    ensures IsWindow(entries, now, x)
  {
    LastOpeningIs(entries, w.id);
    LastClosingIs(entries, w.id);
    hide LastOpening, LastClosing, IsClosed;
    var i :| 0 <= i < |entries| && Opens(entries, i, w.id) && entries[i] == LastOpening(entries, w.id).value
             && forall j :: i < j < |entries| ==> !Opens(entries, j, w.id);
    assert x == WindowShown(entries, i, now);
  }

  lemma {:induction false} OpeningBehind(entries: seq<Entry>, now: int, x: Item) returns (w: Window)
    requires IsWindow(entries, now, x)
    ensures LastOpening(entries, w.id).Some? && w == WindowOf(LastOpening(entries, w.id).value)
    ensures x == ItemOf(w.(closedAt := LastClosing(entries, w.id)), now)
  {
    hide LastOpening, LastClosing, IsClosed, Opens;
    var i: nat :| i < |entries| && Opens(entries, i, entries[i].windowId)
                  && (forall j :: i < j < |entries| ==> !Opens(entries, j, entries[i].windowId))
                  && x == WindowShown(entries, i, now);
    var id := entries[i].windowId;
    LastOpeningIs(entries, id);
    LastClosingIs(entries, id);
    var k :| 0 <= k < |entries| && Opens(entries, k, id) && entries[k] == LastOpening(entries, id).value
             && forall j :: k < j < |entries| ==> !Opens(entries, j, id);
    assert k == i;
    w := WindowOf(entries[i]);
  }

  /** The timeline holds exactly these: the windows as last opened and closed; every delivery; every follow-up
      of a delivery, once for each; and a gap 30, 90 or 180 days after a delivery where no follow-up of it lies
      within fourteen days, missing from that moment on. */
  lemma {:induction false} TimelineHolds(entries: seq<Entry>, now: int, x: Item)
    requires OwnFollowups(entries)
    ensures x in ByTime(AllItems(entries, now)) <==>
            || IsWindow(entries, now, x) || IsDelivery(entries, x)
            || IsFollowup(entries, x) || IsOpenDay(entries, now, x)
  {
    WindowPart(entries, now, x);
    DeliveryPart(entries, now, x);
    assert x in ByTime(AllItems(entries, now)) <==> x in multiset(ByTime(AllItems(entries, now)));
    assert x in AllItems(entries, now) <==> x in multiset(AllItems(entries, now));
    hide ByTime, WindowItems, AllDeliveryItems, IsWindow, IsDelivery, IsFollowup, IsOpenDay, ClosedBy, Opened;
  }

  // ---- The service ----

  method Build(entries: seq<Entry>, now: int) returns (timeline: seq<Item>, counts: Counts)
    ensures timeline == ByTime(AllItems(entries, now))
    ensures counts.deliveries == |OfType(entries, DeliveryRecorded)|
    ensures counts.followups == |OfType(entries, FollowupRecorded)|
    ensures counts.gaps == |Filter(timeline, IsGap)| && counts.missingGaps == |Filter(timeline, IsMissing)|
    ensures counts.upcomingGaps + counts.missingGaps == counts.gaps
  {
    var deliveries := ByTs(OfType(entries, DeliveryRecorded));
    var followups := ByTs(OfType(entries, FollowupRecorded));
    var items := ProjectWindows(entries, now);
    ghost var windows := items;
    hide ByTs, ByTime, WindowItems, ClosedBy, Opened, DeliveryItems, OfType;
    for i := 0 to |deliveries|
      invariant items == windows + AllDeliveryItems(deliveries[..i], followups, now)
    {
      assert deliveries[..i + 1][..i] == deliveries[..i];
      var projected := ProjectDelivery(deliveries[i], followups, now);
      items := items + projected;
    }
    assert deliveries[..|deliveries|] == deliveries;
    timeline := ByTime(items);
    var gaps, missingGaps := Filter(timeline, IsGap), Filter(timeline, IsMissing);
    MissingAreGaps(timeline);
    SameLength(OfType(entries, DeliveryRecorded), deliveries);
    SameLength(OfType(entries, FollowupRecorded), followups);
    counts := Counts(|deliveries|, |followups|, |gaps|, |missingGaps|, |gaps| - |missingGaps|);
  }

  lemma {:induction false} SameLength(a: seq<Entry>, b: seq<Entry>)
    requires multiset(a) == multiset(b)
    ensures |a| == |b|
  {
    assert |multiset(a)| == |a| && |multiset(b)| == |b|;
  }

  lemma {:induction false} MissingAreGaps(items: seq<Item>)
    ensures |Filter(items, IsMissing)| <= |Filter(items, IsGap)|
  {
    if items != [] { MissingAreGaps(items[..|items| - 1]); }
  }

  method ProjectWindows(entries: seq<Entry>, now: int) returns (items: seq<Item>)
    ensures items == WindowItems(ClosedBy(Opened(entries), entries), now)
  {
    var windowsById: seq<Window> := [];
    for i := 0 to |entries|
      invariant windowsById == Opened(entries[..i])
    {
      assert entries[..i + 1][..i] == entries[..i];
      if OpensWindow(entries[i]) { windowsById := Put(windowsById, WindowOf(entries[i])); }
    }
    assert entries[..|entries|] == entries;
    for i := 0 to |entries|
      invariant windowsById == ClosedBy(Opened(entries), entries[..i])
    {
      assert entries[..i + 1][..i] == entries[..i];
      if entries[i].eventType == WindowClosed { windowsById := Close(windowsById, entries[i].windowId, entries[i].ts); }
    }
    items := [];
    for i := 0 to |windowsById|
      invariant |items| == i
      invariant forall k :: 0 <= k < i ==> items[k] == ItemOf(windowsById[k], now)
    {
      items := items + [ItemOf(windowsById[i], now)];
    }
  }

  /** The greedy pass over the schedule. */
  method MatchFollowups(related: seq<Entry>, deliveryTime: int) returns (gaps: seq<nat>)
    ensures gaps == Gaps(related, deliveryTime, 0, {})
  {
    gaps := [];
    var usedFollowupIds: set<string> := {};
    ghost var all := Gaps(related, deliveryTime, 0, {});
    hide Gaps, FirstMatch, Matches;
    for i := 0 to |SCHEDULE_DAYS|
      invariant gaps + Gaps(related, deliveryTime, i, usedFollowupIds) == all
    {
      GapsStep(related, deliveryTime, i, usedFollowupIds);
      ghost var rest := Gaps(related, deliveryTime, i, usedFollowupIds);
      var matched := FirstMatch(related, Slot(deliveryTime, i), usedFollowupIds);
      if matched.Some? {
        usedFollowupIds := usedFollowupIds + {matched.value.followupId};
      } else {
        ghost var after := Gaps(related, deliveryTime, i + 1, usedFollowupIds);
        assert gaps + ([i] + after) == (gaps + [i]) + after;
        gaps := gaps + [i];
      }
    }
    NoSlotLeft(related, deliveryTime, usedFollowupIds);
    assert gaps + [] == gaps;
  }

  /** One delivery, its gaps in schedule order, then its follow-ups. */
  method ProjectDelivery(d: Entry, followups: seq<Entry>, now: int) returns (items: seq<Item>)
    ensures items == DeliveryItems(d, followups, now)
  {
    var relatedFollowups := Related(followups, d.deliveryId);
    var gaps := MatchFollowups(relatedFollowups, d.ts);
    items := [DeliveryItemOf(d)] + GapItems(d, gaps, now) + FollowupItems(relatedFollowups);
  }
}
