/** The fraud audit: counters, pruned lists and sets kept per call, against the full history of calls. */
module IntegrityAudit {
  import opened Common

  /** One call. `hash` is the trimmed lower-case narrative, `injection` whether a forbidden pattern matches. */
  datatype Audit = Audit(
    beneficiary: Option<string>,
    device: Option<string>,
    hash: string,
    injection: bool,
    trusted: bool,
    now: int
  )

  datatype Kind = IdentityMismatch | SuspiciousTone | DuplicateClaim
  datatype Severity = Low | High
  datatype Flag = Flag(kind: Kind, severity: Severity, timestamp: int)

  const COOLDOWN_MS := 30000
  const MAX_VIOLATIONS := 5
  const MAX_DEVICES := 3
  const MAX_BENEFICIARIES := 3
  const ROTATION_WINDOW_MS := 600000
  const ROTATION_THRESHOLD := 3

  /** An identifier that is absent or empty switches the device and beneficiary rules off. */
  predicate Present(id: Option<string>) {
    id.Some? && id.value != ""
  }

  /** The state loaded from disk when the service starts. */
  datatype Loaded = Loaded(registry: map<string, seq<string>>, blacklist: set<string>)

  function BeneficiaryKey(a: Audit): string {
    if a.beneficiary.Some? then a.beneficiary.value else "unknown"
  }

  // ---- Reference: every rule read off the history of calls ----

  /** The call is answered by the blacklist alone. */
  predicate Stopped(init: Loaded, h: seq<Audit>, a: Audit)
    decreases |h|, 3
  {
    Present(a.device) && Blacklisted(init, h, a.device.value)
  }

  predicate Blacklisted(init: Loaded, h: seq<Audit>, d: string)
    decreases |h|, 2
  {
    d in init.blacklist || Violations(init, h, d) >= MAX_VIOLATIONS
  }

  /** The HIGH audits of a device while it was not blacklisted. */
  function Violations(init: Loaded, h: seq<Audit>, d: string): nat
    decreases |h|, 1
  {
    if h == [] then 0
    else
      var before, a := h[..|h| - 1], h[|h| - 1];
      Violations(init, before, d)
      + if a.device == Some(d) && d != "" && !Stopped(init, before, a) && IsHigh(init, before, a) then 1 else 0
  }

  predicate IsHigh(init: Loaded, h: seq<Audit>, a: Audit)
    decreases |h|, 6
  {
    IsDuplicate(init, h, a) || TooManyLinks(init, h, a) || a.injection
  }

  predicate IsDuplicate(init: Loaded, h: seq<Audit>, a: Audit)
    decreases |h|, 5
  {
    !a.trusted && a.hash in Seen(init, h)
  }

  predicate TooManyLinks(init: Loaded, h: seq<Audit>, a: Audit)
    decreases |h|, 5
  {
    !a.trusted && Present(a.device)
    && |WithLink(Links(init, h, a.device.value), BeneficiaryKey(a))| > MAX_BENEFICIARIES
  }

  /** The narratives of earlier anonymous calls that got past the blacklist. */
  function Seen(init: Loaded, h: seq<Audit>): set<string>
    decreases |h|, 4
  {
    if h == [] then {}
    else
      var before, a := h[..|h| - 1], h[|h| - 1];
      Seen(init, before) + if !a.trusted && !Stopped(init, before, a) then {a.hash} else {}
  }

  function WithLink(links: seq<string>, b: string): seq<string> {
    if b in links then links else links + [b]
  }

  /** The beneficiaries a device was used for, in order of first use. */
  function Links(init: Loaded, h: seq<Audit>, d: string): seq<string>
    decreases |h|, 4
  {
    if h == [] then (if d in init.registry then init.registry[d] else [])
    else
      var before, a := h[..|h| - 1], h[|h| - 1];
      if a.device == Some(d) && d != "" && !Stopped(init, before, a)
      then WithLink(Links(init, before, d), BeneficiaryKey(a)) else Links(init, before, d)
  }

  /** The time of the device's last anonymous call that got past the blacklist, 0 when there is none. */
  function LastActive(init: Loaded, h: seq<Audit>, d: string): int {
    if h == [] then 0
    else
      var before, a := h[..|h| - 1], h[|h| - 1];
      if a.device == Some(d) && d != "" && !a.trusted && !Stopped(init, before, a) then a.now
      else LastActive(init, before, d)
  }

  function CooldownFlags(init: Loaded, h: seq<Audit>, a: Audit): seq<Flag> {
    if Present(a.device) && !a.trusted && a.now - LastActive(init, h, a.device.value) < COOLDOWN_MS
    then [Flag(SuspiciousTone, Low, a.now)] else []
  }

  function DuplicateFlags(init: Loaded, h: seq<Audit>, a: Audit): seq<Flag> {
    if IsDuplicate(init, h, a) then [Flag(DuplicateClaim, High, a.now)] else []
  }

  function LinkFlags(init: Loaded, h: seq<Audit>, a: Audit): seq<Flag> {
    if TooManyLinks(init, h, a) then [Flag(IdentityMismatch, High, a.now)] else []
  }

  function InjectionFlags(a: Audit): seq<Flag> {
    if a.injection then [Flag(SuspiciousTone, High, a.now)] else []
  }

  /** The flags of the engine, in the order of its rules. */
  function EngineFlags(init: Loaded, h: seq<Audit>, a: Audit): seq<Flag> {
    if Stopped(init, h, a) then [Flag(IdentityMismatch, High, a.now)]
    else CooldownFlags(init, h, a) + DuplicateFlags(init, h, a) + LinkFlags(init, h, a) + InjectionFlags(a)
  }

  lemma {:induction false} FlagsInOrder(init: Loaded, h: seq<Audit>, a: Audit)
    ensures EngineFlags(init, h, a) ==
            if Stopped(init, h, a) then [Flag(IdentityMismatch, High, a.now)]
            else if a.injection
            then CooldownFlags(init, h, a) + DuplicateFlags(init, h, a) + LinkFlags(init, h, a)
                + [Flag(SuspiciousTone, High, a.now)]
            else CooldownFlags(init, h, a) + DuplicateFlags(init, h, a) + LinkFlags(init, h, a)
  {
    hide Stopped, CooldownFlags, DuplicateFlags, LinkFlags;
  }

  /** A call that gets past the blacklist is HIGH exactly when some flag it returns is. */
  lemma {:induction false} HighFlags(init: Loaded, h: seq<Audit>, a: Audit)
    requires !Stopped(init, h, a)
    ensures IsHigh(init, h, a) <==>
            exists i :: 0 <= i < |EngineFlags(init, h, a)| && EngineFlags(init, h, a)[i].severity == High
  {
    var cooldown := CooldownFlags(init, h, a);
    var high := DuplicateFlags(init, h, a) + LinkFlags(init, h, a) + InjectionFlags(a);
    assert EngineFlags(init, h, a) == cooldown + high by {
      hide CooldownFlags, DuplicateFlags, LinkFlags, InjectionFlags, Stopped;
    }
    FlagSeverities(init, h, a);
    hide *;
    SomeHigh(cooldown, high);
  }

  lemma {:induction false} FlagSeverities(init: Loaded, h: seq<Audit>, a: Audit)
    requires !Stopped(init, h, a)
    ensures
      var high := DuplicateFlags(init, h, a) + LinkFlags(init, h, a) + InjectionFlags(a);
      (IsHigh(init, h, a) <==> |high| > 0) && forall i :: 0 <= i < |high| ==> high[i].severity == High
    ensures forall i :: 0 <= i < |CooldownFlags(init, h, a)| ==> CooldownFlags(init, h, a)[i].severity == Low
  {
    hide Stopped, IsDuplicate, TooManyLinks;
  }

  lemma {:induction false} SomeHigh(low: seq<Flag>, high: seq<Flag>)
    requires forall i :: 0 <= i < |low| ==> low[i].severity == Low
    requires forall i :: 0 <= i < |high| ==> high[i].severity == High
    ensures |high| > 0 <==> exists i :: 0 <= i < |low + high| && (low + high)[i].severity == High
  {
    if |high| > 0 { assert (low + high)[|low|] == high[0]; }
  }

  datatype Event = Event(device: string, timestamp: int)

  /** The call feeds the device rules of a beneficiary. */
  predicate Tracks(a: Audit, b: string) {
    Present(a.device) && a.beneficiary == Some(b) && b != "" && !a.trusted
  }

  /** Every anonymous device use of a beneficiary, ever. */
  function Events(h: seq<Audit>, b: string): seq<Event> {
    if h == [] then []
    else
      var before, a := h[..|h| - 1], h[|h| - 1];
      Events(before, b) + if Tracks(a, b) then [Event(a.device.value, a.now)] else []
  }

  /** The part of a list inside the last ten minutes. */
  function Window(events: seq<Event>, now: int): seq<Event> {
    Filter(events, (e: Event) => now - e.timestamp < ROTATION_WINDOW_MS)
  }

  /** No event, its own or a later one, came ten minutes or more after the first of the list. */
  predicate Survives(events: seq<Event>)
    requires events != []
  {
    forall e :: e in events ==> e.timestamp - events[0].timestamp < ROTATION_WINDOW_MS
  }

  /** The events that no later event has pushed out, for a clock that may also run backwards. */
  function Kept(events: seq<Event>): seq<Event> {
    if events == [] then [] else (if Survives(events) then [events[0]] else []) + Kept(events[1..])
  }

  /** The pruned list of a beneficiary. */
  function ActivityFor(h: seq<Audit>, b: string): seq<Event> {
    Kept(Events(h, b))
  }

  function Devices(events: seq<Event>): set<string> {
    set e | e in events :: e.device
  }

  predicate Anonymous(a: Audit) {
    Present(a.device) && Present(a.beneficiary) && !a.trusted
  }

  /** The two device rules, read off the full history including the present call. */
  function DeviceCountFlags(h: seq<Audit>, a: Audit): seq<Flag> {
    if Anonymous(a) && |Devices(Events(h + [a], a.beneficiary.value))| > MAX_DEVICES
    then [Flag(IdentityMismatch, Low, a.now)] else []
  }

  function RotationFlags(h: seq<Audit>, a: Audit): seq<Flag> {
    if Anonymous(a) && |Devices(Window(Events(h + [a], a.beneficiary.value), a.now))| > ROTATION_THRESHOLD
    then [Flag(SuspiciousTone, Low, a.now)] else []
  }

  /** The rotation rule on the pruned list. */
  function KeptFlags(h: seq<Audit>, a: Audit): seq<Flag> {
    if Anonymous(a) && |Devices(ActivityFor(h + [a], a.beneficiary.value))| > ROTATION_THRESHOLD
    then [Flag(SuspiciousTone, Low, a.now)] else []
  }

  predicate ClockRuns(h: seq<Audit>) {
    forall i, j :: 0 <= i < j < |h| ==> h[i].now <= h[j].now
  }

  // ---- Facts about the reference ----

  lemma {:induction false} Snoc(h: seq<Audit>, a: Audit)
    ensures (h + [a])[..|h|] == h && (h + [a])[|h|] == a && |h + [a]| == |h| + 1
  {
  }

  /** A device never collects more than five violations, and exactly at the fifth it is blacklisted; a
      device blacklisted from the start collects none. */
  lemma {:induction false} CounterAndBlacklist(init: Loaded, h: seq<Audit>, d: string)
    ensures Violations(init, h, d) <= MAX_VIOLATIONS
    ensures d in init.blacklist ==> Violations(init, h, d) == 0
    ensures d !in init.blacklist ==> (Blacklisted(init, h, d) <==> Violations(init, h, d) == MAX_VIOLATIONS)
    decreases |h|
  {
    if h != [] {
      var before, a := h[..|h| - 1], h[|h| - 1];
      CounterAndBlacklist(init, before, d);
      assert a.device == Some(d) && d != "" ==> (Stopped(init, before, a) <==> Blacklisted(init, before, d));
    }
  }

  /** A blacklisted device stays blacklisted: every later call for it gets the one HIGH flag, and adds no
      violation, no link, no narrative and no activity. */
  lemma {:induction false} BlacklistIsForever(init: Loaded, h: seq<Audit>, more: seq<Audit>, d: string)
    requires Blacklisted(init, h, d) && d != ""
    ensures Blacklisted(init, h + more, d)
    ensures Violations(init, h + more, d) == Violations(init, h, d)
    ensures Links(init, h + more, d) == Links(init, h, d)
    ensures LastActive(init, h + more, d) == LastActive(init, h, d)
    ensures forall a: Audit :: a.device == Some(d) ==>
              EngineFlags(init, h + more, a) == [Flag(IdentityMismatch, High, a.now)]
              && Seen(init, h + more + [a]) == Seen(init, h + more)
    decreases |more|
  {
    if more == [] {
      assert h + more == h;
    } else {
      var init_, last := more[..|more| - 1], more[|more| - 1];
      assert h + more == (h + init_) + [last];
      BlacklistIsForever(init, h, init_, d);
      Snoc(h + init_, last);
    }
    forall a: Audit | a.device == Some(d)
      ensures Stopped(init, h + more, a) && Seen(init, h + more + [a]) == Seen(init, h + more)
    {
      Snoc(h + more, a);
      assert Stopped(init, h + more, a);
    }
  }

  /** With a clock that does not run backwards, pruning what was pruned before loses nothing: the pruned
      list plus the new event, pruned again, is the full history pruned once. */
  lemma {:induction false} PruningRefinesHistory(events: seq<Event>, then_: int, e: Event, now: int)
    requires then_ <= now
    ensures Window(Window(events, then_) + [e], now) == Window(events + [e], now)
    decreases |events|
  {
    var inNow := (x: Event) => now - x.timestamp < ROTATION_WINDOW_MS;
    FilterSnoc(Window(events, then_), e, inNow);
    FilterSnoc(events, e, inNow);
    WindowOfWindow(events, then_, now);
  }

  lemma {:induction false} WindowOfWindow(events: seq<Event>, then_: int, now: int)
    requires then_ <= now
    ensures Window(Window(events, then_), now) == Window(events, now)
    decreases |events|
  {
    if events != [] {
      var before, e := events[..|events| - 1], events[|events| - 1];
      assert events == before + [e];
      WindowOfWindow(before, then_, now);
      FilterSnoc(before, e, (x: Event) => then_ - x.timestamp < ROTATION_WINDOW_MS);
      FilterSnoc(before, e, (x: Event) => now - x.timestamp < ROTATION_WINDOW_MS);
      FilterSnoc(Window(before, then_), e, (x: Event) => now - x.timestamp < ROTATION_WINDOW_MS);
    }
  }

  lemma {:induction false} ClockRunsBefore(h: seq<Audit>, a: Audit)
    requires ClockRuns(h + [a])
    ensures ClockRuns(h) && forall i :: 0 <= i < |h| ==> h[i].now <= a.now
  {
    forall i, j | 0 <= i < j < |h| ensures h[i].now <= h[j].now {
      assert (h + [a])[i] == h[i] && (h + [a])[j] == h[j];
    }
    forall i | 0 <= i < |h| ensures h[i].now <= a.now {
      assert (h + [a])[i] == h[i] && (h + [a])[|h|] == a;
    }
  }

  lemma {:induction false} EventsAreOld(h: seq<Audit>, now: int, b: string)
    requires forall i :: 0 <= i < |h| ==> h[i].now <= now
    ensures forall i :: 0 <= i < |Events(h, b)| ==> Events(h, b)[i].timestamp <= now
    decreases |h|
  {
    if h != [] { EventsAreOld(h[..|h| - 1], now, b); }
  }

  lemma {:induction false} EventsAfter(h: seq<Audit>, a: Audit, b: string)
    ensures Tracks(a, b) ==> Events(h + [a], b) == Events(h, b) + [Event(a.device.value, a.now)]
    ensures !Tracks(a, b) ==> Events(h + [a], b) == Events(h, b)
  {
    Snoc(h, a);
  }

  /** Pruning after each event keeps exactly the survivors, whatever the clock does. */
  lemma {:induction false} PruningKeepsSurvivors(events: seq<Event>, e: Event)
    ensures Kept(events + [e]) == Window(Kept(events) + [e], e.timestamp)
    decreases |events|
  {
    if events == [] {
      assert events + [e] == [e] && [e][1..] == [] && Kept([e]) == [e];
      assert Kept(events) + [e] == [e];
      WindowOne(e, e.timestamp);
    } else {
      var x, rest := events[0], events[1..];
      assert (events + [e])[0] == x && (events + [e])[1..] == rest + [e];
      var head := if Survives(events) then [x] else [];
      assert Kept(events) == head + Kept(rest);
      assert Kept(events + [e]) == (if Survives(events + [e]) then [x] else []) + Kept(rest + [e]);
      hide *;
      PruningKeepsSurvivors(rest, e);
      assert Kept(events) + [e] == head + (Kept(rest) + [e]);
      WindowConcat(head, Kept(rest) + [e], e.timestamp);
      WindowOne(x, e.timestamp);
      SurvivesSnoc(events, e);
    }
  }

  lemma {:induction false} WindowConcat(xs: seq<Event>, ys: seq<Event>, now: int)
    ensures Window(xs + ys, now) == Window(xs, now) + Window(ys, now)
  {
    FilterConcat(xs, ys, (e: Event) => now - e.timestamp < ROTATION_WINDOW_MS);
  }

  lemma {:induction false} WindowOne(x: Event, now: int)
    ensures Window([x], now) == if now - x.timestamp < ROTATION_WINDOW_MS then [x] else []
    ensures Window([], now) == []
  {
    FilterSnoc([], x, (e: Event) => now - e.timestamp < ROTATION_WINDOW_MS);
    assert [] + [x] == [x];
  }

  lemma {:induction false} SurvivesSnoc(events: seq<Event>, e: Event)
    requires events != []
    ensures Survives(events + [e]) <==> Survives(events) && e.timestamp - events[0].timestamp < ROTATION_WINDOW_MS
  {
    assert forall x :: x in events + [e] <==> x in events || x == e;
  }

  /** Nothing that is inside the window now was outside it at some call in between. */
  predicate NoReturn(events: seq<Event>, now: int) {
    forall i, j :: 0 <= i < j < |events| && now - events[i].timestamp < ROTATION_WINDOW_MS ==>
      events[j].timestamp - events[i].timestamp < ROTATION_WINDOW_MS
  }

  /** The pruned list is the ten-minute window of the full history exactly when no event returns to the window. */
  lemma {:induction false} KeptIsWindowIff(events: seq<Event>, now: int)
    requires events != [] && events[|events| - 1].timestamp == now
    ensures |Kept(events)| <= |Window(events, now)|
    ensures Kept(events) == Window(events, now) <==> NoReturn(events, now)
    decreases |events|
  {
    var x, rest := events[0], events[1..];
    WindowFirst(events, now);
    assert events[|events| - 1] in events;
    if rest == [] {
      assert events == [x] && Survives(events);
      assert Kept(events) == [x] + Kept(rest) && Kept(rest) == [] && Window(rest, now) == [];
    } else {
      NoReturnFirst(events, now);
      assert Survives(events) ==> now - x.timestamp < ROTATION_WINDOW_MS;
      assert Kept(events) == (if Survives(events) then [x] else []) + Kept(rest);
      var kept, window, inWindow := Kept(rest), Window(rest, now), now - x.timestamp < ROTATION_WINDOW_MS;
      KeptIsWindowIff(rest, now);
      hide *;
      SameTail(x, kept, window);
      if Survives(events) {
        assert Kept(events) == [x] + kept && Window(events, now) == [x] + window;
      } else if inWindow {
        assert |Kept(events)| == |kept| < |Window(events, now)|;
      } else {
        assert Kept(events) == kept && Window(events, now) == window;
      }
    }
  }

  lemma {:induction false} SameTail(x: Event, k: seq<Event>, w: seq<Event>)
    ensures [x] + k == [x] + w <==> k == w
    ensures [] + k == k && [] + w == w
  {
    assert ([x] + k)[1..] == k && ([x] + w)[1..] == w;
  }

  lemma {:induction false} WindowFirst(events: seq<Event>, now: int)
    requires events != []
    ensures Window(events, now)
            == (if now - events[0].timestamp < ROTATION_WINDOW_MS then [events[0]] else []) + Window(events[1..], now)
  {
    assert events == [events[0]] + events[1..];
    WindowConcat([events[0]], events[1..], now);
    WindowOne(events[0], now);
  }

  lemma {:induction false} NoReturnFirst(events: seq<Event>, now: int)
    requires |events| > 1
    ensures NoReturn(events, now) <==>
            NoReturn(events[1..], now) && (now - events[0].timestamp < ROTATION_WINDOW_MS ==> Survives(events))
  {
    var rest := events[1..];
    assert forall k :: 0 <= k < |rest| ==> rest[k] == events[k + 1];
    if NoReturn(events, now) {
      if now - events[0].timestamp < ROTATION_WINDOW_MS {
        forall e | e in events ensures e.timestamp - events[0].timestamp < ROTATION_WINDOW_MS {
          var j :| 0 <= j < |events| && events[j] == e;
        }
      }
      forall i, j | 0 <= i < j < |rest| && now - rest[i].timestamp < ROTATION_WINDOW_MS
        ensures rest[j].timestamp - rest[i].timestamp < ROTATION_WINDOW_MS
      {
        assert rest[i] == events[i + 1] && rest[j] == events[j + 1];
      }
    }
    if NoReturn(rest, now) && (now - events[0].timestamp < ROTATION_WINDOW_MS ==> Survives(events)) {
      forall i, j | 0 <= i < j < |events| && now - events[i].timestamp < ROTATION_WINDOW_MS
        ensures events[j].timestamp - events[i].timestamp < ROTATION_WINDOW_MS
      {
        if i > 0 { assert events[i] == rest[i - 1] && events[j] == rest[j - 1]; }
        assert events[j] in events;
      }
    }
  }

  /** The call brings no earlier event of its beneficiary back into the window. */
  predicate NothingReturns(h: seq<Audit>, a: Audit) {
    Anonymous(a) ==> NoReturn(Events(h + [a], a.beneficiary.value), a.now)
  }

  /** Nothing ever returns with a clock that does not run backwards. */
  lemma {:induction false} RunningClockReturnsNothing(h: seq<Audit>, a: Audit)
    requires ClockRuns(h + [a])
    ensures NothingReturns(h, a)
  {
    if Anonymous(a) {
      var b := a.beneficiary.value;
      EventsAfter(h, a, b);
      ClockRunsBefore(h, a);
      EventsAreOld(h, a.now, b);
    }
    hide ClockRuns;
  }

  /** The pruned list after a call is the ten-minute window of the full history exactly if nothing returned. */
  lemma {:induction false} ActivityAfter(h: seq<Audit>, a: Audit, b: string)
    requires Tracks(a, b)
    ensures ActivityFor(h + [a], b) == Window(Events(h + [a], b), a.now) <==> NothingReturns(h, a)
  {
    EventsAfter(h, a, b);
    hide Events, Window, NoReturn;
    KeptIsWindowIff(Events(h + [a], b), a.now);
  }

  /** Hence, if nothing returned, the rotation flag is the one the full history prescribes. */
  lemma {:induction false} RotationIsRight(h: seq<Audit>, a: Audit)
    requires NothingReturns(h, a)
    ensures KeptFlags(h, a) == RotationFlags(h, a)
  {
    if Anonymous(a) {
      assert Tracks(a, a.beneficiary.value);
      ActivityAfter(h, a, a.beneficiary.value);
    }
    hide Events, ActivityFor, Window, Devices, NothingReturns;
  }

  /** With a clock that jumps back a rotation goes unnoticed: three devices at one time, one ten minutes
      later, and a fourth after the clock was set back. */
  lemma {:induction false} ClockSetBackHidesRotation() returns (events: seq<Event>)
    ensures events != []
    ensures
      var now := events[|events| - 1].timestamp;
      && !NoReturn(events, now)
      && |Devices(Window(events, now))| == 4 > ROTATION_THRESHOLD >= |Devices(Kept(events))|
  {
    var a, b, c, late, d := Event("a", 0), Event("b", 0), Event("c", 0), Event("a", ROTATION_WINDOW_MS), Event("d", 0);
    events := [a, b, c, late, d];
    assert events[|events| - 1].timestamp == 0;
    assert !NoReturn(events, 0) by { assert events[3].timestamp - events[0].timestamp == ROTATION_WINDOW_MS; }
    hide NoReturn, Kept, Survives, Devices;
    AllInWindow(events);
    FourDevices(a, b, c, late, d);
    ThreePushedOut(a, b, c, late, d);
    TwoKept(late, d);
  }

  lemma {:induction false} AllInWindow(events: seq<Event>)
    requires forall e :: e in events ==> e.timestamp >= 0
    ensures Window(events, 0) == events
  {
    FilterAll(events, (e: Event) => 0 - e.timestamp < ROTATION_WINDOW_MS);
  }

  lemma {:induction false} ThreePushedOut(a: Event, b: Event, c: Event, late: Event, d: Event)
    requires a.timestamp == b.timestamp == c.timestamp == late.timestamp - ROTATION_WINDOW_MS
    ensures Kept([a, b, c, late, d]) == Kept([late, d])
  {
    hide Kept;
    assert [a] + [b, c, late, d] == [a, b, c, late, d];
    assert [b] + [c, late, d] == [b, c, late, d] && [c] + [late, d] == [c, late, d];
    PushedOut(a, [b, c, late, d], late);
    PushedOut(b, [c, late, d], late);
    PushedOut(c, [late, d], late);
  }

  lemma {:induction false} PushedOut(x: Event, rest: seq<Event>, e: Event)
    requires e in rest && e.timestamp - x.timestamp >= ROTATION_WINDOW_MS
    ensures Kept([x] + rest) == Kept(rest)
  {
    assert ([x] + rest)[1..] == rest && e in [x] + rest;
    assert [] + Kept(rest) == Kept(rest);
  }

  lemma {:induction false} KeptAmong(events: seq<Event>)
    ensures forall e :: e in Kept(events) ==> e in events
  {
    if events != [] { KeptAmong(events[1..]); }
  }

  lemma {:induction false} TwoKept(x: Event, y: Event)
    requires x.device != y.device
    ensures |Devices(Kept([x, y]))| <= 2
  {
    var kept := Kept([x, y]);
    KeptAmong([x, y]);
    assert Devices(kept) <= {x.device, y.device};
    SubsetSize(Devices(kept), {x.device, y.device});
  }

  lemma {:induction false} FourDevices(a: Event, b: Event, c: Event, late: Event, d: Event)
    requires a.device == late.device == "a" && b.device == "b" && c.device == "c" && d.device == "d"
    ensures |Devices([a, b, c, late, d])| == 4
  {
    var events := [a, b, c, late, d];
    assert a in events && b in events && c in events && d in events;
    assert Devices(events) == {"a", "b", "c", "d"};
  }

  function Get<V>(m: map<string, V>, k: string, default_: V): V {
    if k in m then m[k] else default_
  }

  /** What one call does to a pruned list. */
  function ActivityNext(before: seq<Event>, a: Audit, b: string): seq<Event> {
    if Tracks(a, b) then Window(before + [Event(a.device.value, a.now)], a.now) else before
  }

  lemma {:induction false} ActivityStep(h: seq<Audit>, a: Audit, b: string)
    ensures ActivityFor(h + [a], b) == ActivityNext(ActivityFor(h, b), a, b)
  {
    EventsAfter(h, a, b);
    hide Events, Window, Kept;
    if Tracks(a, b) { PruningKeepsSurvivors(Events(h, b), Event(a.device.value, a.now)); }
  }

  lemma {:induction false} DevicesAfter(h: seq<Audit>, a: Audit, b: string)
    ensures Devices(Events(h + [a], b)) == Devices(Events(h, b)) + if Tracks(a, b) then {a.device.value} else {}
  {
    Snoc(h, a);
    if Tracks(a, b) {
      var before, e := Events(h, b), Event(a.device.value, a.now);
      assert Events(h + [a], b) == before + [e];
      assert e in before + [e];
      assert forall x :: x in before + [e] <==> x in before || x == e;
    } else {
      assert Events(h + [a], b) == Events(h, b);
    }
  }

  lemma {:induction false} StoppedChangesNothing(init: Loaded, h: seq<Audit>, a: Audit)
    requires Stopped(init, h, a)
    ensures Seen(init, h + [a]) == Seen(init, h)
    ensures forall d :: Links(init, h + [a], d) == Links(init, h, d)
                        && LastActive(init, h + [a], d) == LastActive(init, h, d)
                        && Violations(init, h + [a], d) == Violations(init, h, d)
                        && (Blacklisted(init, h + [a], d) <==> Blacklisted(init, h, d))
  {
    Snoc(h, a);
    hide Stopped;
  }

  /** A map that holds the pruned lists, updated for one call, holds the pruned lists of the longer history. */
  lemma {:induction false} RotationCall(h: seq<Audit>, a: Audit, before: map<string, seq<Event>>,
                                        after: map<string, seq<Event>>)
    requires forall b :: Get(before, b, []) == ActivityFor(h, b)
    requires
      if Anonymous(a)
      then after == before[a.beneficiary.value :=
                             Window(Get(before, a.beneficiary.value, []) + [Event(a.device.value, a.now)], a.now)]
      else after == before
    ensures forall b :: Get(after, b, []) == ActivityFor(h + [a], b)
    ensures KeptFlags(h, a) ==
            if Anonymous(a) && |Devices(Get(after, a.beneficiary.value, []))| > ROTATION_THRESHOLD
            then [Flag(SuspiciousTone, Low, a.now)] else []
    ensures Anonymous(a) ==>
              Get(after, a.beneficiary.value, [])
              == Window(Get(before, a.beneficiary.value, []) + [Event(a.device.value, a.now)], a.now)
  {
    hide ActivityFor, Window, Devices;
    forall b ensures Get(after, b, []) == ActivityFor(h + [a], b) { ActivityStep(h, a, b); }
  }

  // ---- The reference, call by call ----

  /** The i-th call got past the blacklist. */
  predicate Passed(init: Loaded, h: seq<Audit>, i: nat)
    requires i < |h|
  {
    !Stopped(init, h[..i], h[i])
  }

  /** The i-th call is by this device and got past the blacklist. */
  predicate PassedBy(init: Loaded, h: seq<Audit>, i: nat, d: string)
    requires i < |h|
  {
    h[i].device == Some(d) && Passed(init, h, i)
  }

  lemma {:induction false} PassedBefore(init: Loaded, h: seq<Audit>, i: nat)
    requires i < |h| - 1
    ensures Passed(init, h, i) <==> Passed(init, h[..|h| - 1], i)
  {
    assert h[..|h| - 1][..i] == h[..i];
    hide Stopped;
  }

  /** A narrative is known exactly if an earlier anonymous call that got past the blacklist told it. */
  lemma {:induction false} SeenIff(init: Loaded, h: seq<Audit>, x: string)
    ensures x in Seen(init, h) <==> exists i :: 0 <= i < |h| && !h[i].trusted && Passed(init, h, i) && h[i].hash == x
    decreases |h|
  {
    if h != [] {
      var before, n := h[..|h| - 1], |h| - 1;
      SeenIff(init, before, x);
      forall i: nat | i < n ensures Passed(init, h, i) <==> Passed(init, before, i) { PassedBefore(init, h, i); }
      assert Passed(init, h, n) <==> !Stopped(init, before, h[n]);
      hide Stopped, Passed;
      if exists i :: 0 <= i < |before| && !before[i].trusted && Passed(init, before, i) && before[i].hash == x {
        var i :| 0 <= i < |before| && !before[i].trusted && Passed(init, before, i) && before[i].hash == x;
        assert !h[i].trusted && Passed(init, h, i) && h[i].hash == x;
      }
      if exists i :: 0 <= i < |h| && !h[i].trusted && Passed(init, h, i) && h[i].hash == x {
        var i :| 0 <= i < |h| && !h[i].trusted && Passed(init, h, i) && h[i].hash == x;
        if i < n { assert !before[i].trusted && Passed(init, before, i) && before[i].hash == x; }
      }
    }
  }

  /** A beneficiary is linked to a device exactly if it was loaded so or the device made a call for it that got
      past the blacklist; links are never repeated. */
  lemma {:induction false} LinksIff(init: Loaded, h: seq<Audit>, d: string, b: string)
    requires d != ""
    ensures b in Links(init, h, d) <==>
            || b in Links(init, [], d)
            || exists i :: 0 <= i < |h| && PassedBy(init, h, i, d) && BeneficiaryKey(h[i]) == b
    decreases |h|
  {
    if h != [] {
      var before, n := h[..|h| - 1], |h| - 1;
      LinksIff(init, before, d, b);
      forall i: nat | i < n ensures PassedBy(init, h, i, d) <==> PassedBy(init, before, i, d) {
        PassedBefore(init, h, i);
        hide Passed;
      }
      assert PassedBy(init, h, n, d) <==> h[n].device == Some(d) && !Stopped(init, before, h[n]);
      hide Stopped, PassedBy, BeneficiaryKey;
      if exists i :: 0 <= i < |before| && PassedBy(init, before, i, d) && BeneficiaryKey(before[i]) == b {
        var i :| 0 <= i < |before| && PassedBy(init, before, i, d) && BeneficiaryKey(before[i]) == b;
        assert PassedBy(init, h, i, d) && BeneficiaryKey(h[i]) == b;
      }
      if exists i :: 0 <= i < |h| && PassedBy(init, h, i, d) && BeneficiaryKey(h[i]) == b {
        var i :| 0 <= i < |h| && PassedBy(init, h, i, d) && BeneficiaryKey(h[i]) == b;
        if i < n { assert PassedBy(init, before, i, d) && BeneficiaryKey(before[i]) == b; }
      }
    }
  }

  predicate NoRepeats(links: seq<string>) {
    forall i, j :: 0 <= i < j < |links| ==> links[i] != links[j]
  }

  lemma {:induction false} LinksNeverRepeat(init: Loaded, h: seq<Audit>, d: string)
    requires NoRepeats(Links(init, [], d))
    ensures NoRepeats(Links(init, h, d))
    decreases |h|
  {
    if h != [] { LinksNeverRepeat(init, h[..|h| - 1], d); }
  }

  predicate ActiveBy(init: Loaded, h: seq<Audit>, i: nat, d: string)
    requires i < |h|
  {
    PassedBy(init, h, i, d) && !h[i].trusted
  }

  /** The time kept for a device is that of its last anonymous call that got past the blacklist. */
  lemma {:induction false} LastActiveIs(init: Loaded, h: seq<Audit>, d: string)
    requires d != ""
    ensures
      || (LastActive(init, h, d) == 0 && forall i :: 0 <= i < |h| ==> !ActiveBy(init, h, i, d))
      || exists i :: 0 <= i < |h| && ActiveBy(init, h, i, d) && LastActive(init, h, d) == h[i].now
                     && forall j :: i < j < |h| ==> !ActiveBy(init, h, j, d)
    decreases |h|
  {
    if h != [] {
      var before, n := h[..|h| - 1], |h| - 1;
      LastActiveIs(init, before, d);
      forall i: nat | i < n ensures ActiveBy(init, h, i, d) <==> ActiveBy(init, before, i, d) {
        PassedBefore(init, h, i);
        hide Passed;
      }
      assert ActiveBy(init, h, n, d) <==> h[n].device == Some(d) && !Stopped(init, before, h[n]) && !h[n].trusted;
      hide Stopped, ActiveBy;
      if !ActiveBy(init, h, n, d) && exists i :: 0 <= i < |before| && ActiveBy(init, before, i, d) {
        var i :| 0 <= i < |before| && ActiveBy(init, before, i, d) && LastActive(init, before, d) == before[i].now
                 && forall j :: i < j < |before| ==> !ActiveBy(init, before, j, d);
        assert ActiveBy(init, h, i, d) && LastActive(init, h, d) == h[i].now;
      }
    }
  }

  predicate ViolatesAt(init: Loaded, h: seq<Audit>, i: nat, d: string)
    requires i < |h|
  {
    PassedBy(init, h, i, d) && IsHigh(init, h[..i], h[i])
  }

  /** The counter of a device is the number of its HIGH calls that got past the blacklist. */
  lemma {:induction false} ViolationsAreCounted(init: Loaded, h: seq<Audit>, d: string)
    requires d != ""
    ensures Violations(init, h, d) == |set i: nat | i < |h| && ViolatesAt(init, h, i, d)|
    decreases |h|
  {
    var now := set i: nat | i < |h| && ViolatesAt(init, h, i, d);
    if h == [] {
      assert now == {};
    } else {
      var before, n := h[..|h| - 1], |h| - 1;
      ViolationsAreCounted(init, before, d);
      forall i: nat | i < n ensures ViolatesAt(init, h, i, d) <==> ViolatesAt(init, before, i, d) {
        PassedBefore(init, h, i);
        assert before[..i] == h[..i];
        hide Passed, IsHigh;
      }
      var then_ := set i: nat | i < |before| && ViolatesAt(init, before, i, d);
      assert ViolatesAt(init, h, n, d) <==>
             h[n].device == Some(d) && !Stopped(init, before, h[n]) && IsHigh(init, before, h[n]);
      hide Stopped, IsHigh, ViolatesAt;
      assert now == if ViolatesAt(init, h, n, d) then then_ + {n} else then_;
    }
  }

  // ---- The answers, call by call ----

  predicate HasDevice(a: Audit) {
    a.device.Some? && a.device.value != ""
  }

  /** Only the blacklist answers: the device was loaded as blacklisted or has made five HIGH calls that got past it. */
  lemma {:induction false} StoppedIff(init: Loaded, h: seq<Audit>, a: Audit)
    ensures Stopped(init, h, a) <==>
            HasDevice(a) && (a.device.value in init.blacklist
                             || |set i: nat | i < |h| && ViolatesAt(init, h, i, a.device.value)| >= 5)
    ensures Stopped(init, h, a) ==> EngineFlags(init, h, a) == [Flag(IdentityMismatch, High, a.now)]
  {
    if HasDevice(a) { ViolationsAreCounted(init, h, a.device.value); }
    hide Violations, ViolatesAt;
  }

  /** Half a minute has not passed since the last anonymous call of the device, or since the epoch. */
  predicate CoolingDown(init: Loaded, h: seq<Audit>, a: Audit) {
    && HasDevice(a) && !a.trusted
    && ((a.now < 30000 && forall i :: 0 <= i < |h| ==> !ActiveBy(init, h, i, a.device.value))
        || exists i :: 0 <= i < |h| && ActiveBy(init, h, i, a.device.value) && a.now - h[i].now < 30000
                       && forall j :: i < j < |h| ==> !ActiveBy(init, h, j, a.device.value))
  }

  lemma {:induction false} CooldownIff(init: Loaded, h: seq<Audit>, a: Audit)
    ensures CooldownFlags(init, h, a) == if CoolingDown(init, h, a) then [Flag(SuspiciousTone, Low, a.now)] else []
  {
    if HasDevice(a) {
      LastActiveIs(init, h, a.device.value);
      hide LastActive, ActiveBy;
    }
  }

  /** An earlier anonymous call that got past the blacklist told the same narrative. */
  predicate Retold(init: Loaded, h: seq<Audit>, a: Audit) {
    !a.trusted && exists i :: 0 <= i < |h| && !h[i].trusted && Passed(init, h, i) && h[i].hash == a.hash
  }

  lemma {:induction false} DuplicateIff(init: Loaded, h: seq<Audit>, a: Audit)
    ensures DuplicateFlags(init, h, a) == if Retold(init, h, a) then [Flag(DuplicateClaim, High, a.now)] else []
  {
    SeenIff(init, h, a.hash);
    hide Seen, Passed;
  }

  /** `b` is one of the beneficiaries of the device, this call included. */
  predicate IsServed(init: Loaded, h: seq<Audit>, a: Audit, b: string)
    requires HasDevice(a)
  {
    || b == (if a.beneficiary == None then "unknown" else a.beneficiary.value)
    || (a.device.value in init.registry && b in init.registry[a.device.value])
    || exists i :: 0 <= i < |h| && PassedBy(init, h, i, a.device.value)
                   && b == if h[i].beneficiary == None then "unknown" else h[i].beneficiary.value
  }

  /** With a registry loaded without repetitions, a device that serves more than three beneficiaries is flagged. */
  lemma {:induction false} LinksFlaggedIff(init: Loaded, h: seq<Audit>, a: Audit, served: set<string>)
    requires HasDevice(a) && NoRepeats(Links(init, [], a.device.value))
    requires forall b :: b in served <==> IsServed(init, h, a, b)
    ensures LinkFlags(init, h, a)
            == if !a.trusted && |served| > 3 then [Flag(IdentityMismatch, High, a.now)] else []
  {
    var d, key := a.device.value, BeneficiaryKey(a);
    var links := WithLink(Links(init, h, d), key);
    LinksNeverRepeat(init, h, d);
    forall b ensures b in links <==> b in served {
      LinksIff(init, h, d, b);
      ServedIs(init, h, a, b);
      hide Links, IsServed;
    }
    hide Links, IsServed;
    assert NoRepeats(links);
    SetOfDistinct(links);
    assert SetOf(links) == served;
  }

  lemma {:induction false} ServedIs(init: Loaded, h: seq<Audit>, a: Audit, b: string)
    requires HasDevice(a)
    ensures IsServed(init, h, a, b) <==>
            || b == BeneficiaryKey(a) || b in Links(init, [], a.device.value)
            || exists i :: 0 <= i < |h| && PassedBy(init, h, i, a.device.value) && BeneficiaryKey(h[i]) == b
  {
    hide PassedBy;
  }

  /** Without a device there are no cooldown and no registry flags. */
  lemma {:induction false} NoDeviceNoFlags(init: Loaded, h: seq<Audit>, a: Audit)
    requires !HasDevice(a)
    ensures LinkFlags(init, h, a) == [] && CooldownFlags(init, h, a) == [] && !Stopped(init, h, a)
  {
  }

  /** What the engine returns to a call it does not stop, rule by rule in this order. */
  lemma {:induction false} EngineAnswer(init: Loaded, h: seq<Audit>, a: Audit)
    requires !Stopped(init, h, a)
    ensures EngineFlags(init, h, a) ==
            (if CoolingDown(init, h, a) then [Flag(SuspiciousTone, Low, a.now)] else [])
            + (if Retold(init, h, a) then [Flag(DuplicateClaim, High, a.now)] else [])
            + LinkFlags(init, h, a)
            + (if a.injection then [Flag(SuspiciousTone, High, a.now)] else [])
  {
    CooldownIff(init, h, a);
    DuplicateIff(init, h, a);
    hide CooldownFlags, DuplicateFlags, LinkFlags, Stopped, CoolingDown, Retold;
  }

  // ---- The device rules, call by call ----

  /** An untrusted call that names this beneficiary and a device. */
  predicate IsUse(a: Audit, b: string) {
    b != "" && a.beneficiary == Some(b) && HasDevice(a) && !a.trusted
  }

  lemma {:induction false} EventsAre(h: seq<Audit>, b: string, e: Event)
    ensures e in Events(h, b) <==>
            exists i :: 0 <= i < |h| && IsUse(h[i], b) && e == Event(h[i].device.value, h[i].now)
    decreases |h|
  {
    if h != [] {
      var before, n := h[..|h| - 1], |h| - 1;
      EventsAre(before, b, e);
      assert Tracks(h[n], b) <==> IsUse(h[n], b);
      hide IsUse, Tracks;
      if exists i :: 0 <= i < |before| && IsUse(before[i], b) && e == Event(before[i].device.value, before[i].now) {
        var i :| 0 <= i < |before| && IsUse(before[i], b) && e == Event(before[i].device.value, before[i].now);
        assert h[i] == before[i];
      }
      if exists i :: 0 <= i < n && IsUse(h[i], b) && e == Event(h[i].device.value, h[i].now) {
        var i :| 0 <= i < n && IsUse(h[i], b) && e == Event(h[i].device.value, h[i].now);
        assert before[i] == h[i];
      }
    }
  }

  /** The devices a beneficiary has used, this call included, and those used in the last ten minutes. */
  function UsedDevices(h: seq<Audit>, b: string): set<string> {
    set i: nat | i < |h| && IsUse(h[i], b) && h[i].device.Some? :: h[i].device.value
  }

  function RecentDevices(h: seq<Audit>, b: string, now: int): set<string> {
    set i: nat | i < |h| && IsUse(h[i], b) && h[i].device.Some? && now - h[i].now < 600000 :: h[i].device.value
  }

  /** More than three devices ever used by the beneficiary of an untrusted call raise a LOW flag. */
  lemma {:induction false} DeviceCountIff(h: seq<Audit>, a: Audit)
    ensures DeviceCountFlags(h, a) ==
            if a.beneficiary.Some? && IsUse(a, a.beneficiary.value)
               && |UsedDevices(h + [a], a.beneficiary.value)| > 3
            then [Flag(IdentityMismatch, Low, a.now)] else []
  {
    if a.beneficiary.Some? { UsedAre(h + [a], a.beneficiary.value); }
    hide UsedDevices, Devices, Events;
  }

  lemma {:induction false} UsedAre(h: seq<Audit>, b: string)
    ensures Devices(Events(h, b)) == UsedDevices(h, b)
  {
    forall d ensures d in Devices(Events(h, b)) <==> d in UsedDevices(h, b) {
      if d in Devices(Events(h, b)) {
        var e :| e in Events(h, b) && e.device == d;
        EventsAre(h, b, e);
      }
      if d in UsedDevices(h, b) {
        var i: nat :| i < |h| && IsUse(h[i], b) && h[i].device == Some(d);
        EventsAre(h, b, Event(d, h[i].now));
      }
    }
  }

  /** As long as no event returns to the window, more than three devices in the last ten minutes raise a LOW
      flag of the other kind. */
  lemma {:induction false} RotationIff(h: seq<Audit>, a: Audit)
    requires NothingReturns(h, a)
    ensures KeptFlags(h, a) ==
            if a.beneficiary.Some? && IsUse(a, a.beneficiary.value)
               && |RecentDevices(h + [a], a.beneficiary.value, a.now)| > 3
            then [Flag(SuspiciousTone, Low, a.now)] else []
  {
    RotationIsRight(h, a);
    if a.beneficiary.Some? { RecentAre(h + [a], a.beneficiary.value, a.now); }
    hide RecentDevices, Devices, Events, Window, KeptFlags, NothingReturns;
  }

  lemma {:induction false} RecentAre(h: seq<Audit>, b: string, now: int)
    ensures Devices(Window(Events(h, b), now)) == RecentDevices(h, b, now)
  {
    var recent := Window(Events(h, b), now);
    assert forall e :: e in recent <==> e in Events(h, b) && now - e.timestamp < 600000;
    hide Window, Events;
    forall d ensures d in Devices(recent) <==> d in RecentDevices(h, b, now) {
      if d in Devices(recent) {
        var e :| e in recent && e.device == d;
        EventsAre(h, b, e);
      }
      if d in RecentDevices(h, b, now) {
        var i: nat :| i < |h| && IsUse(h[i], b) && h[i].device == Some(d) && now - h[i].now < 600000;
        EventsAre(h, b, Event(d, h[i].now));
        assert Event(d, h[i].now) in recent;
      }
    }
  }

  // ---- The service ----

  class IntegrityService {
    var processedHashes: set<string>
    var deviceRegistry: map<string, seq<string>>
    var lastActivity: map<string, int>
    var violationCounters: map<string, nat>
    var blacklist: set<string>
    var beneficiaryDeviceMap: map<string, set<string>>
    var beneficiaryActivity: map<string, seq<Event>>
    ghost var history: seq<Audit>
    ghost const init: Loaded

    /** The engine's five structures say what the history `h` says. */
    ghost predicate EngineSays(h: seq<Audit>)
      reads this
    {
      && processedHashes == Seen(init, h)
      && (forall d :: Get(deviceRegistry, d, []) == Links(init, h, d))
      && (forall d :: Get(lastActivity, d, 0) == LastActive(init, h, d))
      && (forall d :: Get(violationCounters, d, 0) == Violations(init, h, d))
      && (forall d :: d != "" ==> (d in blacklist <==> Blacklisted(init, h, d)))
    }

    ghost predicate EngineValid()
      reads this
    {
      EngineSays(history)
    }

    /** The service's two maps: all devices ever, and the events that no later one has pushed out. */
    ghost predicate TrackingValid()
      reads this
    {
      && (forall b :: Get(beneficiaryDeviceMap, b, {}) == Devices(Events(history, b)))
      && (forall b :: Get(beneficiaryActivity, b, []) == ActivityFor(history, b))
    }

    constructor (registry: map<string, seq<string>>, loadedBlacklist: set<string>)
      ensures EngineValid() && TrackingValid() && history == []
      ensures init == Loaded(registry, loadedBlacklist)
    {
      processedHashes, lastActivity, violationCounters := {}, map[], map[];
      deviceRegistry, blacklist := registry, loadedBlacklist;
      beneficiaryDeviceMap, beneficiaryActivity := map[], map[];
      history := [];
      init := Loaded(registry, loadedBlacklist);
    }

    /** Cooldown rule. */
    method CheckCooldown(a: Audit) returns (flags: seq<Flag>)
      requires !Stopped(init, history, a)
      requires forall d :: Get(lastActivity, d, 0) == LastActive(init, history, d)
      modifies this`lastActivity
      ensures flags == CooldownFlags(init, history, a)
      ensures forall d :: Get(lastActivity, d, 0) == LastActive(init, history + [a], d)
    {
      hide Stopped;
      Snoc(history, a);
      flags := [];
      if Present(a.device) && !a.trusted {
        var lastTime := Get(lastActivity, a.device.value, 0);
        if a.now - lastTime < COOLDOWN_MS { flags := [Flag(SuspiciousTone, Low, a.now)]; }
        lastActivity := lastActivity[a.device.value := a.now];
      }
    }

    /** Duplicate narrative rule. */
    method CheckDuplicate(a: Audit) returns (flags: seq<Flag>)
      requires !Stopped(init, history, a) && processedHashes == Seen(init, history)
      modifies this`processedHashes
      ensures flags == DuplicateFlags(init, history, a)
      ensures processedHashes == Seen(init, history + [a])
    {
      hide Stopped;
      Snoc(history, a);
      flags := if a.hash in processedHashes && !a.trusted then [Flag(DuplicateClaim, High, a.now)] else [];
      if !a.trusted { processedHashes := processedHashes + {a.hash}; }
    }

    /** Device to beneficiary rule. */
    method CheckLinks(a: Audit) returns (flags: seq<Flag>)
      requires !Stopped(init, history, a)
      requires forall d :: Get(deviceRegistry, d, []) == Links(init, history, d)
      modifies this`deviceRegistry
      ensures flags == LinkFlags(init, history, a)
      ensures forall d :: Get(deviceRegistry, d, []) == Links(init, history + [a], d)
    {
      hide Stopped;
      Snoc(history, a);
      flags := [];
      if Present(a.device) {
        var beneficiaryId := BeneficiaryKey(a);
        var linkedBeneficiaries := Get(deviceRegistry, a.device.value, []);
        if beneficiaryId !in linkedBeneficiaries {
          linkedBeneficiaries := linkedBeneficiaries + [beneficiaryId];
          deviceRegistry := deviceRegistry[a.device.value := linkedBeneficiaries];
        }
        if !a.trusted && |linkedBeneficiaries| > MAX_BENEFICIARIES {
          flags := [Flag(IdentityMismatch, High, a.now)];
        }
      }
    }

    /** Escalation: count a HIGH call, blacklist the device at the fifth. */
    method Escalate(a: Audit, high: bool)
      requires !Stopped(init, history, a) && high == IsHigh(init, history, a)
      requires forall d :: Get(violationCounters, d, 0) == Violations(init, history, d)
      requires forall d :: d != "" ==> (d in blacklist <==> Blacklisted(init, history, d))
      modifies this`violationCounters, this`blacklist
      ensures forall d :: Get(violationCounters, d, 0) == Violations(init, history + [a], d)
      ensures forall d :: d != "" ==> (d in blacklist <==> Blacklisted(init, history + [a], d))
    {
      hide Stopped, IsHigh;
      Snoc(history, a);
      if Present(a.device) && high {
        var count := Get(violationCounters, a.device.value, 0) + 1;
        violationCounters := violationCounters[a.device.value := count];
        if count >= MAX_VIOLATIONS { blacklist := blacklist + {a.device.value}; }
      }
    }

    /** The audit engine. A call stopped by the blacklist changes none of its structures. */
    method EngineAudit(a: Audit) returns (flags: seq<Flag>)
      requires EngineValid()
      modifies this`processedHashes, this`deviceRegistry, this`lastActivity, this`violationCounters, this`blacklist
      ensures flags == EngineFlags(init, history, a)
      ensures Stopped(init, history, a) ==>
                processedHashes == old(processedHashes) && deviceRegistry == old(deviceRegistry)
                && lastActivity == old(lastActivity) && violationCounters == old(violationCounters)
                && blacklist == old(blacklist)
      ensures EngineSays(history + [a])
    {
      hide Blacklisted, Seen, Links, LastActive, Violations, IsHigh, CooldownFlags, DuplicateFlags, LinkFlags,
        EngineFlags;
      FlagsInOrder(init, history, a);
      if Present(a.device) && a.device.value in blacklist {
        StoppedChangesNothing(init, history, a);
        return [Flag(IdentityMismatch, High, a.now)];
      }
      assert !Stopped(init, history, a);
      hide Stopped;
      HighFlags(init, history, a);
      var cooldown := CheckCooldown(a);
      var duplicate := CheckDuplicate(a);
      var links := CheckLinks(a);
      flags := cooldown + duplicate + links;
      if a.injection { flags := flags + [Flag(SuspiciousTone, High, a.now)]; }
      var high := HasHigh(flags);
      Escalate(a, high);
    }

    method HasHigh(flags: seq<Flag>) returns (r: bool)
      ensures r <==> exists i :: 0 <= i < |flags| && flags[i].severity == High
    {
      for i := 0 to |flags|
        invariant forall k :: 0 <= k < i ==> flags[k].severity != High
      {
        if flags[i].severity == High { return true; }
      }
      r := false;
    }

    /** Rule 1: all devices a beneficiary ever used. */
    method CheckDeviceCount(a: Audit) returns (flags: seq<Flag>)
      requires forall b :: Get(beneficiaryDeviceMap, b, {}) == Devices(Events(history, b))
      modifies this`beneficiaryDeviceMap
      ensures flags == DeviceCountFlags(history, a)
      ensures forall b :: Get(beneficiaryDeviceMap, b, {}) == Devices(Events(history + [a], b))
    {
      forall b ensures Devices(Events(history + [a], b)) ==
                       Devices(Events(history, b)) + if Tracks(a, b) then {a.device.value} else {} {
        DevicesAfter(history, a, b);
      }
      hide Events, Devices;
      flags := [];
      if Present(a.device) && Present(a.beneficiary) && !a.trusted {
        var b := a.beneficiary.value;
        var deviceSet := Get(beneficiaryDeviceMap, b, {}) + {a.device.value};
        beneficiaryDeviceMap := beneficiaryDeviceMap[b := deviceSet];
        if |deviceSet| > MAX_DEVICES { flags := [Flag(IdentityMismatch, Low, a.now)]; }
      }
    }

    /** Rule 2: devices a beneficiary used in the last ten minutes, from the pruned list. */
    method CheckRotation(a: Audit) returns (flags: seq<Flag>)
      requires forall b :: Get(beneficiaryActivity, b, []) == ActivityFor(history, b)
      modifies this`beneficiaryActivity
      ensures flags == KeptFlags(history, a)
      ensures NothingReturns(history, a) ==> flags == RotationFlags(history, a)
      ensures forall b :: Get(beneficiaryActivity, b, []) == ActivityFor(history + [a], b)
    {
      if NothingReturns(history, a) { RotationIsRight(history, a); }
      ghost var before := beneficiaryActivity;
      hide ActivityFor, NothingReturns, Window, Devices, RotationFlags, KeptFlags, Get;
      flags := [];
      if Present(a.device) && Present(a.beneficiary) && !a.trusted {
        var b := a.beneficiary.value;
        var activity := Get(beneficiaryActivity, b, []) + [Event(a.device.value, a.now)];
        activity := Window(activity, a.now);
        beneficiaryActivity := beneficiaryActivity[b := activity];
        var uniqueDevices := Devices(activity);
        if |uniqueDevices| > ROTATION_THRESHOLD { flags := [Flag(SuspiciousTone, Low, a.now)]; }
      }
      RotationCall(history, a, before, beneficiaryActivity);
    }

    /** One call: the device rules, then the engine; the history grows by the call. */
    method PerformFullAudit(a: Audit) returns (flags: seq<Flag>)
      requires EngineValid() && TrackingValid()
      modifies this
      ensures EngineValid() && TrackingValid() && history == old(history) + [a]
      ensures flags == DeviceCountFlags(old(history), a) + KeptFlags(old(history), a)
              + EngineFlags(init, old(history), a)
      ensures NothingReturns(old(history), a) ==>
                flags == DeviceCountFlags(old(history), a) + RotationFlags(old(history), a)
                         + EngineFlags(init, old(history), a)
    {
      hide DeviceCountFlags, RotationFlags, KeptFlags, EngineFlags, Events, ActivityFor, NothingReturns, Devices,
        Seen, Links,
           LastActive, Violations, Blacklisted, Stopped;
      var deviceCount := CheckDeviceCount(a);
      var rotation := CheckRotation(a);
      var existingFlags := EngineAudit(a);
      history := history + [a];
      flags := deviceCount + rotation + existingFlags;
    }
  }
}
