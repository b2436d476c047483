/** The notification scheduler (app.js lines 170-243): in Timer Mode a
    registry from trigger key (`start-<id>`, `end-<id>`) to timeout handle,
    kept beside the host's table of pending timeouts; in Deferred Mode a log
    of the notifications handed to the platform with a timestamp trigger.

    The pure functions below say what one step does to a `TimerState`; the
    `Scheduler` class performs the same steps in place and is proved to
    agree with them. */
module Scheduling {
  import opened Wrappers
  import opened Text
  import opened TimeModel
  import opened Events
  import opened Delivery

  /** The largest delay `setTimeout` honours: 2^31 - 1 ms, about 24.8 days. */
  const MaxTimerDelay: int := 0x7fff_ffff

  /** A pending host timeout: its delay and the `showNow(e, kind)` it will run. */
  datatype Timeout = Timeout(delay: int, kind: Kind, event: Event)

  /** A callback that ran at once because its instant had already come. */
  datatype Firing = Firing(kind: Kind, event: Event)

  /** A notification about moment `kind` of `event` registered with the
      platform, at `madeAt`, for the instant `at` (`None` is the Invalid Date
      of a NaN time). */
  datatype Registration = Registration(kind: Kind, event: Event, at: Option<int>, madeAt: int)
  {
    /** The tag the notification replaces others by. */
    function Tag(): string {
      Delivery.Tag(kind, event.id)
    }

    /** The body text, built when the registration was made. */
    function Body(): string {
      NoticeBody(event, kind, madeAt)
    }
  }

  /** `state.timers`, the host's pending timeouts by handle, the next handle
      the host gives out, and the logs of immediate firings and deferred
      registrations. */
  datatype TimerState = TimerState(
    registry: map<string, nat>,
    pending: map<nat, Timeout>,
    next: nat,
    fired: seq<Firing>,
    deferred: seq<Registration>)

  const Idle := TimerState(map[], map[], 0, [], [])

  /** Every registered handle is pending, handles are below the next one the
      host gives out, and no two keys share a handle. */
  ghost predicate WellFormed(st: TimerState) {
    && (forall k :: k in st.registry ==> st.registry[k] in st.pending)
    && (forall h :: h in st.pending ==> h < st.next)
    && (forall k1, k2 :: k1 in st.registry && k2 in st.registry && st.registry[k1] == st.registry[k2] ==> k1 == k2)
  }

  // ----- setLocalTimer -----

  /** `delta <= 0`: the instant has come. The delta of an Invalid Date is NaN,
      and NaN is never `<= 0`. */
  predicate IsDue(when: Option<int>, now: int) {
    when.Some? && when.value - now <= 0
  }

  /** `Math.min(delta, 0x7fffffff)` as `setTimeout` takes it: a NaN delay
      counts as 0. */
  function TimerDelay(when: Option<int>, now: int): (d: int)
    requires !IsDue(when, now)
    ensures 0 <= d <= MaxTimerDelay
    ensures when.None? ==> d == 0
    ensures when.Some? && when.value - now > MaxTimerDelay ==> d == MaxTimerDelay
    ensures when.Some? ==> 0 < d <= when.value - now
    ensures when.Some? && when.value - now <= MaxTimerDelay ==> d == when.value - now
  {
    if when.None? then 0
    else if when.value - now < MaxTimerDelay then when.value - now
    else MaxTimerDelay
  }

  /** `setLocalTimer(key, when, () => showNow(e, kind))`: a due instant runs
      the callback at once and touches nothing else; otherwise a fresh
      timeout is started and `key` is pointed at it, overwriting (without
      cancelling) whatever handle the key held before. */
  function ArmTimer(st: TimerState, key: string, when: Option<int>, kind: Kind, e: Event, now: int): (r: TimerState)
    ensures IsDue(when, now) ==> r == st.(fired := st.fired + [Firing(kind, e)])
    ensures !IsDue(when, now) ==>
      && r.registry.Keys == st.registry.Keys + {key}
      && (forall k :: k in st.registry && k != key ==> r.registry[k] == st.registry[k])
      && r.registry[key] == st.next && r.next == st.next + 1
      && r.pending == st.pending[st.next := Timeout(TimerDelay(when, now), kind, e)]
      && r.fired == st.fired && r.deferred == st.deferred
  {
    if IsDue(when, now) then st.(fired := st.fired + [Firing(kind, e)])
    else
      var h := st.next;
      st.(registry := st.registry[key := h],
          pending := st.pending[h := Timeout(TimerDelay(when, now), kind, e)],
          next := h + 1)
  }

  lemma ArmTimerWellFormed(st: TimerState, key: string, when: Option<int>, kind: Kind, e: Event, now: int)
    requires WellFormed(st)
    ensures WellFormed(ArmTimer(st, key, when, kind, e, now))
  {
    var r := ArmTimer(st, key, when, kind, e, now);
    if !IsDue(when, now) {
      forall k | k in r.registry && k != key
        ensures r.registry[k] == st.registry[k] < r.registry[key]
      {
        assert st.registry[k] in st.pending;
      }
    }
  }

  /** Overwriting a key leaks its old timeout: the old handle stays pending
      but no key reaches it any more, so no later clear cancels it. */
  lemma OverwriteLeaksTimeout(st: TimerState, key: string, when: Option<int>, kind: Kind, e: Event, now: int)
    requires WellFormed(st) && key in st.registry && !IsDue(when, now)
    ensures var r := ArmTimer(st, key, when, kind, e, now);
      && st.registry[key] in r.pending
      && r.pending[st.registry[key]] == st.pending[st.registry[key]]
      && (forall k :: k in r.registry ==> r.registry[k] != st.registry[key])
  {
    var r := ArmTimer(st, key, when, kind, e, now);
    var old_h := st.registry[key];
    forall k | k in r.registry ensures r.registry[k] != old_h {
      if k != key {
        assert r.registry[k] == st.registry[k];
      }
    }
  }

  // ----- clearAllTimers -----

  /** `clearAllTimers()`: every registered timeout is cancelled and the
      registry emptied; timeouts no key reaches stay pending. */
  function ClearAll(st: TimerState): (r: TimerState)
    ensures r.registry == map[]
    ensures forall h :: h in r.pending <==> h in st.pending && h !in st.registry.Values
    ensures forall h :: h in r.pending ==> r.pending[h] == st.pending[h]
    ensures r.next == st.next && r.fired == st.fired && r.deferred == st.deferred
  {
    st.(registry := map[], pending := st.pending - st.registry.Values)
  }

  lemma ClearAllWellFormed(st: TimerState)
    requires WellFormed(st)
    ensures WellFormed(ClearAll(st))
  {
  }

  // ----- scheduleForEvent -----

  /** The instant of the start notification. */
  function StartInstant(e: Event, now: int): Option<int> {
    DateForEventTime(now, e.dayIndex, e.startMin)
  }

  /** The instant of the end notification. */
  function EndInstant(e: Event, now: int): Option<int> {
    DateForEventTime(now, e.dayIndex, e.endMin)
  }

  /** An end notification is wanted only with `notifyEnd` and an end time. */
  predicate WantsEnd(e: Event) {
    e.notifyEnd && e.endMin != NoTime
  }

  /** Whether an event wants a notification of the given kind, and its instant. */
  predicate Wants(e: Event, k: Kind) {
    if k == StartKind then e.notifyStart else WantsEnd(e)
  }

  function Instant(e: Event, k: Kind, now: int): Option<int> {
    if k == StartKind then StartInstant(e, now) else EndInstant(e, now)
  }

  /** One notification of one event, in the chosen delivery mode. */
  function Deliver(st: TimerState, e: Event, k: Kind, when: Option<int>, now: int, deferredMode: bool): TimerState {
    if deferredMode then st.(deferred := st.deferred + [Registration(k, e, when, now)])
    else ArmTimer(st, Tag(k, e.id), when, k, e, now)
  }

  /** The notification of kind `k` of `e`, when the event wants it. */
  function Step(st: TimerState, e: Event, k: Kind, now: int, deferredMode: bool): TimerState {
    if Wants(e, k) then Deliver(st, e, k, Instant(e, k, now), now, deferredMode) else st
  }

  /** `scheduleForEvent(e)`: the start notification when `notifyStart` is
      set, then the end notification when `notifyEnd` is set and there is
      an end time. */
  function ScheduleEvent(st: TimerState, e: Event, now: int, deferredMode: bool): TimerState {
    Step(Step(st, e, StartKind, now, deferredMode), e, EndKind, now, deferredMode)
  }

  /** `scheduleForEvent` for each event in turn. */
  function ScheduleEvents(st: TimerState, evs: seq<Event>, now: int, deferredMode: bool): TimerState {
    if evs == [] then st
    else ScheduleEvent(ScheduleEvents(st, evs[..|evs| - 1], now, deferredMode), evs[|evs| - 1], now, deferredMode)
  }

  /** Scheduling one more event continues the pass where it stood. */
  lemma ScheduleEventsSnoc(st: TimerState, evs: seq<Event>, e: Event, now: int, deferredMode: bool)
    ensures ScheduleEvents(st, evs + [e], now, deferredMode)
      == ScheduleEvent(ScheduleEvents(st, evs, now, deferredMode), e, now, deferredMode)
  {
    assert (evs + [e])[..|evs|] == evs;
  }

  /** `scheduleAll()`: clear every timer, then schedule each event of the
      current week. */
  function Reschedule(st: TimerState, events: seq<Event>, now: int, deferredMode: bool): TimerState {
    ScheduleEvents(ClearAll(st), InWeek(events, CurrentWeekStart(now)), now, deferredMode)
  }

  // ----- what a pass arms, fires and registers -----

  /** The key a notification arms: when it is wanted and its instant has not come. */
  function ArmedBy(e: Event, k: Kind, now: int): seq<string> {
    if Wants(e, k) && !IsDue(Instant(e, k, now), now) then [Tag(k, e.id)] else []
  }

  /** The callback a notification runs at once: when it is wanted and its instant has come. */
  function FiredBy(e: Event, k: Kind, now: int): seq<Firing> {
    if Wants(e, k) && IsDue(Instant(e, k, now), now) then [Firing(k, e)] else []
  }

  /** The platform registration a wanted notification makes in Deferred Mode. */
  function RegisteredBy(e: Event, k: Kind, now: int): seq<Registration> {
    if Wants(e, k) then [Registration(k, e, Instant(e, k, now), now)] else []
  }

  function EventArmedTags(e: Event, now: int): seq<string> {
    ArmedBy(e, StartKind, now) + ArmedBy(e, EndKind, now)
  }

  function ArmedTags(evs: seq<Event>, now: int): seq<string> {
    if evs == [] then [] else ArmedTags(evs[..|evs| - 1], now) + EventArmedTags(evs[|evs| - 1], now)
  }

  function EventFirings(e: Event, now: int): seq<Firing> {
    FiredBy(e, StartKind, now) + FiredBy(e, EndKind, now)
  }

  function Firings(evs: seq<Event>, now: int): seq<Firing> {
    if evs == [] then [] else Firings(evs[..|evs| - 1], now) + EventFirings(evs[|evs| - 1], now)
  }

  function EventRegistrations(e: Event, now: int): seq<Registration> {
    RegisteredBy(e, StartKind, now) + RegisteredBy(e, EndKind, now)
  }

  function Registrations(evs: seq<Event>, now: int): seq<Registration> {
    if evs == [] then [] else Registrations(evs[..|evs| - 1], now) + EventRegistrations(evs[|evs| - 1], now)
  }

  /** How a Timer Mode pass changes the state: the keys of `armed` are added
      with handles no older than `st.next` and every other key is kept,
      `fired` is appended to the firing log, the handle counter only grows,
      and pending timeouts are only ever added, under fresh handles. */
  ghost predicate Grows(st: TimerState, r: TimerState, armed: seq<string>, fired: seq<Firing>) {
    && (forall k :: k in r.registry <==> k in st.registry || k in armed)
    && (forall k :: k in st.registry && k !in armed ==> k in r.registry && r.registry[k] == st.registry[k])
    && (forall k :: k in armed ==> k in r.registry && r.registry[k] >= st.next)
    && r.fired == st.fired + fired
    && r.deferred == st.deferred
    && st.next <= r.next
    && (forall h :: h in st.pending ==> h in r.pending && r.pending[h] == st.pending[h])
    && (forall h :: h in r.pending ==> h in st.pending || st.next <= h)
  }

  lemma GrowsTrans(a: TimerState, b: TimerState, c: TimerState,
                   armed1: seq<string>, fired1: seq<Firing>, armed2: seq<string>, fired2: seq<Firing>)
    requires Grows(a, b, armed1, fired1) && Grows(b, c, armed2, fired2)
    ensures Grows(a, c, armed1 + armed2, fired1 + fired2)
  {
    forall k | k in armed1 + armed2 ensures k in c.registry && c.registry[k] >= a.next {
      if k !in armed2 {
        assert k in armed1;
      }
    }
  }

  /** In Timer Mode one notification step adds its armed key, runs its due
      callback, gives out only a fresh handle and keeps every other pending
      timeout as it was. */
  lemma StepTimer(st: TimerState, e: Event, k: Kind, now: int)
    requires WellFormed(st)
    ensures WellFormed(Step(st, e, k, now, false))
    ensures Grows(st, Step(st, e, k, now, false), ArmedBy(e, k, now), FiredBy(e, k, now))
  {
    if Wants(e, k) {
      ArmTimerWellFormed(st, Tag(k, e.id), Instant(e, k, now), k, e, now);
    }
  }

  /** The same for both notifications of one event. */
  lemma ScheduleEventTimer(st: TimerState, e: Event, now: int)
    requires WellFormed(st)
    ensures WellFormed(ScheduleEvent(st, e, now, false))
    ensures Grows(st, ScheduleEvent(st, e, now, false), EventArmedTags(e, now), EventFirings(e, now))
  {
    var st1 := Step(st, e, StartKind, now, false);
    StepTimer(st, e, StartKind, now);
    StepTimer(st1, e, EndKind, now);
    GrowsTrans(st, st1, Step(st1, e, EndKind, now, false),
      ArmedBy(e, StartKind, now), FiredBy(e, StartKind, now), ArmedBy(e, EndKind, now), FiredBy(e, EndKind, now));
  }

  /** The same for a whole sequence of events. */
  lemma {:induction false} ScheduleEventsTimer(st: TimerState, evs: seq<Event>, now: int)
    requires WellFormed(st)
    ensures WellFormed(ScheduleEvents(st, evs, now, false))
    ensures Grows(st, ScheduleEvents(st, evs, now, false), ArmedTags(evs, now), Firings(evs, now))
  {
    if evs == [] {
      assert ArmedTags(evs, now) == [] && Firings(evs, now) == [];
      assert st.fired + [] == st.fired;
    } else {
      var init, last := evs[..|evs| - 1], evs[|evs| - 1];
      ScheduleEventsTimer(st, init, now);
      var mid := ScheduleEvents(st, init, now, false);
      ScheduleEventTimer(mid, last, now);
      GrowsTrans(st, mid, ScheduleEvent(mid, last, now, false),
        ArmedTags(init, now), Firings(init, now), EventArmedTags(last, now), EventFirings(last, now));
    }
  }

  /** In Deferred Mode scheduling leaves the timer registry, the pending
      timeouts, the handle counter and the firing log as they were. */
  ghost predicate OnlyRegisters(st: TimerState, r: TimerState, regs: seq<Registration>) {
    r.registry == st.registry && r.pending == st.pending && r.next == st.next
    && r.fired == st.fired && r.deferred == st.deferred + regs
  }

  /** In Deferred Mode one step only appends its platform registration. */
  lemma StepDeferred(st: TimerState, e: Event, k: Kind, now: int)
    ensures OnlyRegisters(st, Step(st, e, k, now, true), RegisteredBy(e, k, now))
  {
  }

  /** The same for both notifications of one event. */
  lemma ScheduleEventDeferred(st: TimerState, e: Event, now: int)
    ensures OnlyRegisters(st, ScheduleEvent(st, e, now, true), EventRegistrations(e, now))
  {
    StepDeferred(st, e, StartKind, now);
    StepDeferred(Step(st, e, StartKind, now, true), e, EndKind, now);
    assert st.deferred + RegisteredBy(e, StartKind, now) + RegisteredBy(e, EndKind, now)
        == st.deferred + EventRegistrations(e, now);
  }

  /** In Deferred Mode scheduling only registers with the platform; the
      timer registry, the pending timeouts and the firing log stay as they
      were. */
  lemma {:induction false} ScheduleEventsDeferred(st: TimerState, evs: seq<Event>, now: int)
    ensures OnlyRegisters(st, ScheduleEvents(st, evs, now, true), Registrations(evs, now))
  {
    if evs == [] {
      assert st.deferred + Registrations(evs, now) == st.deferred;
    } else {
      var init, last := evs[..|evs| - 1], evs[|evs| - 1];
      ScheduleEventsDeferred(st, init, now);
      ScheduleEventDeferred(ScheduleEvents(st, init, now, true), last, now);
      assert st.deferred + Registrations(init, now) + EventRegistrations(last, now)
          == st.deferred + Registrations(evs, now);
    }
  }

  // ----- scheduleAll -----

  /** After `scheduleAll()` in Timer Mode the registry holds exactly the keys
      armed in this pass for the current week's events; every timeout the
      registry held before is cancelled; the due callbacks of this pass ran,
      in order. */
  lemma RescheduleTimer(st: TimerState, events: seq<Event>, now: int)
    requires WellFormed(st)
    ensures var r := Reschedule(st, events, now, false);
      var week := InWeek(events, CurrentWeekStart(now));
      && WellFormed(r)
      && (forall k :: k in r.registry <==> k in ArmedTags(week, now))
      && (forall k :: k in st.registry ==> st.registry[k] !in r.pending)
      && r.fired == st.fired + Firings(week, now)
      && r.deferred == st.deferred
  {
    var c := ClearAll(st);
    ClearAllWellFormed(st);
    ScheduleEventsTimer(c, InWeek(events, CurrentWeekStart(now)), now);
  }

  /** A key armed by a pass belongs to an event of the current week. */
  lemma {:induction false} ArmedTagsFromEvents(evs: seq<Event>, now: int, k: string)
    requires k in ArmedTags(evs, now)
    ensures exists e :: e in evs && (k == Tag(StartKind, e.id) || k == Tag(EndKind, e.id))
  {
    var init := evs[..|evs| - 1];
    var last := evs[|evs| - 1];
    if k in ArmedTags(init, now) {
      ArmedTagsFromEvents(init, now, k);
      var e :| e in init && (k == Tag(StartKind, e.id) || k == Tag(EndKind, e.id));
      assert e in evs;
    } else {
      assert k in EventArmedTags(last, now);
    }
  }

  /** Only events of the current week get timers. */
  lemma RescheduleOnlyCurrentWeek(st: TimerState, events: seq<Event>, now: int, k: string)
    requires WellFormed(st)
    requires k in Reschedule(st, events, now, false).registry
    ensures exists e :: e in events && e.weekStart == CurrentWeekStart(now)
                        && (k == Tag(StartKind, e.id) || k == Tag(EndKind, e.id))
  {
    RescheduleTimer(st, events, now);
    ArmedTagsFromEvents(InWeek(events, CurrentWeekStart(now)), now, k);
  }

  /** With no events left, `scheduleAll()` leaves no timer armed. */
  lemma RescheduleEmpty(st: TimerState, now: int, deferredMode: bool)
    ensures Reschedule(st, [], now, deferredMode).registry == map[]
  {
    assert InWeek([], CurrentWeekStart(now)) == [];
  }

  /** In Deferred Mode `scheduleAll()` empties the timer registry and adds
      the platform registrations of the current week's events. */
  lemma RescheduleDeferred(st: TimerState, events: seq<Event>, now: int)
    ensures var r := Reschedule(st, events, now, true);
      && r.registry == map[]
      && r.deferred == st.deferred + Registrations(InWeek(events, CurrentWeekStart(now)), now)
      && r.fired == st.fired
  {
    ScheduleEventsDeferred(ClearAll(st), InWeek(events, CurrentWeekStart(now)), now);
  }

  // ----- counting -----

  /** How many notifications the events want: their set notify flags that
      have a time to go with them. */
  function WantedCount(evs: seq<Event>): nat {
    if evs == [] then 0
    else
      var e := evs[|evs| - 1];
      WantedCount(evs[..|evs| - 1]) + (if e.notifyStart then 1 else 0) + (if WantsEnd(e) then 1 else 0)
  }

  /** Every wanted notification is either armed or fired at once. */
  lemma {:induction false} ArmedPlusFired(evs: seq<Event>, now: int)
    ensures |ArmedTags(evs, now)| + |Firings(evs, now)| == WantedCount(evs)
  {
    if evs != [] {
      ArmedPlusFired(evs[..|evs| - 1], now);
    }
  }

  predicate NoDuplicates(s: seq<string>) {
    forall i, j :: 0 <= i < j < |s| ==> s[i] != s[j]
  }

  lemma NoDuplicatesAppend(a: seq<string>, b: seq<string>)
    requires NoDuplicates(a) && NoDuplicates(b)
    requires forall x :: x in a && x in b ==> false
    ensures NoDuplicates(a + b)
  {
    forall i, j | 0 <= i < j < |a + b| ensures (a + b)[i] != (a + b)[j] {
      if i < |a| && j >= |a| {
        assert (a + b)[i] in a && (a + b)[j] in b;
      }
    }
  }

  lemma {:induction false} NoDuplicatesCard(s: seq<string>)
    requires NoDuplicates(s)
    ensures |(set x | x in s)| == |s|
  {
    if s != [] {
      var init := s[..|s| - 1];
      NoDuplicatesCard(init);
      assert (set x | x in s) == (set x | x in init) + {s[|s| - 1]};
    }
  }

  /** No event with a different id arms a key of `id`. */
  lemma {:induction false} ArmedTagsAvoid(evs: seq<Event>, now: int, id: string)
    requires forall i :: 0 <= i < |evs| ==> evs[i].id != id
    ensures Tag(StartKind, id) !in ArmedTags(evs, now)
    ensures Tag(EndKind, id) !in ArmedTags(evs, now)
  {
    if evs != [] {
      var init, last := evs[..|evs| - 1], evs[|evs| - 1];
      ArmedTagsAvoid(init, now, id);
      forall k1: Kind, k2: Kind ensures Tag(k1, id) != Tag(k2, last.id) {
        if Tag(k1, id) == Tag(k2, last.id) { TagInjective(k1, id, k2, last.id); }
      }
    }
  }

  /** Events with distinct ids arm distinct keys. */
  lemma {:induction false} ArmedTagsDistinct(evs: seq<Event>, now: int)
    requires DistinctIds(evs)
    ensures NoDuplicates(ArmedTags(evs, now))
  {
    if evs != [] {
      var init, last := evs[..|evs| - 1], evs[|evs| - 1];
      ArmedTagsDistinct(init, now);
      ArmedTagsAvoid(init, now, last.id);
      var a, b := ArmedTags(init, now), EventArmedTags(last, now);
      assert NoDuplicates(b) by {
        assert Tag(StartKind, last.id)[0] != Tag(EndKind, last.id)[0];
      }
      NoDuplicatesAppend(a, b);
    }
  }

  /** After `scheduleAll()` in Timer Mode, when the week's events have
      distinct ids, the registry holds one entry per wanted notification
      of the week whose instant has not yet come. */
  lemma RescheduleCount(st: TimerState, events: seq<Event>, now: int)
    requires WellFormed(st)
    requires DistinctIds(events)
    ensures var week := InWeek(events, CurrentWeekStart(now));
      |Reschedule(st, events, now, false).registry| == WantedCount(week) - |Firings(week, now)|
  {
    var week := InWeek(events, CurrentWeekStart(now));
    var r := Reschedule(st, events, now, false);
    RescheduleTimer(st, events, now);
    InWeekDistinct(events, CurrentWeekStart(now));
    ArmedTagsDistinct(week, now);
    NoDuplicatesCard(ArmedTags(week, now));
    ArmedPlusFired(week, now);
    assert r.registry.Keys == set x | x in ArmedTags(week, now);
  }

  // ----- what an armed timeout will do -----

  /** `r` holds a pending timeout under the key of notification `k` of `e`
      that will show that notification after the delay its instant calls for. */
  ghost predicate ArmedWith(r: TimerState, e: Event, k: Kind, now: int) {
    && !IsDue(Instant(e, k, now), now)
    && Tag(k, e.id) in r.registry
    && r.registry[Tag(k, e.id)] in r.pending
    && r.pending[r.registry[Tag(k, e.id)]] == Timeout(TimerDelay(Instant(e, k, now), now), k, e)
  }

  /** Scheduling one event arms each of its wanted, not yet due
      notifications with that event's own timeout. */
  lemma ScheduleEventArms(st: TimerState, e: Event, now: int, k: Kind)
    requires WellFormed(st)
    requires Wants(e, k) && !IsDue(Instant(e, k, now), now)
    ensures ArmedWith(ScheduleEvent(st, e, now, false), e, k, now)
  {
    var key := Tag(k, e.id);
    if k == StartKind {
      var st1 := ArmTimer(st, key, Instant(e, k, now), k, e, now);
      ArmTimerWellFormed(st, key, Instant(e, k, now), k, e, now);
      if WantsEnd(e) {
        var other := Tag(EndKind, e.id);
        assert other != key by {
          assert other[0] == 'e' && key[0] == 's';
        }
      }
    }
  }

  /** In a pass over events with distinct ids, each armed key leads to a
      pending timeout that will show that event's notification after the
      delay its instant calls for. */
  lemma {:induction false} ArmedTimeout(st: TimerState, evs: seq<Event>, now: int, e: Event, k: Kind)
    requires WellFormed(st) && DistinctIds(evs)
    requires e in evs && Wants(e, k) && !IsDue(Instant(e, k, now), now)
    ensures ArmedWith(ScheduleEvents(st, evs, now, false), e, k, now)
  {
    var init, last := evs[..|evs| - 1], evs[|evs| - 1];
    var mid := ScheduleEvents(st, init, now, false);
    ScheduleEventsTimer(st, init, now);
    if e == last {
      ScheduleEventArms(mid, e, now, k);
    } else {
      assert e in init by {
        var j :| 0 <= j < |evs| && evs[j] == e;
        assert init[j] == e;
      }
      ArmedTimeout(st, init, now, e, k);
      OtherEventKeepsKey(mid, last, now, e.id, k);
    }
  }

  /** Scheduling an event leaves another event's armed key and its timeout
      alone. */
  lemma OtherEventKeepsKey(st: TimerState, e: Event, now: int, id: string, k: Kind)
    requires WellFormed(st) && id != e.id
    requires Tag(k, id) in st.registry && st.registry[Tag(k, id)] in st.pending
    ensures var r := ScheduleEvent(st, e, now, false);
      && Tag(k, id) in r.registry
      && r.registry[Tag(k, id)] == st.registry[Tag(k, id)]
      && r.pending[st.registry[Tag(k, id)]] == st.pending[st.registry[Tag(k, id)]]
  {
    ScheduleEventTimer(st, e, now);
    var key := Tag(k, id);
    if key == Tag(StartKind, e.id) { TagInjective(k, id, StartKind, e.id); }
    if key == Tag(EndKind, e.id) { TagInjective(k, id, EndKind, e.id); }
  }

  /** After `scheduleAll()` with distinct ids, each wanted notification of a
      current-week event whose instant has not come is armed with that
      event's own timeout, and no timeout registered before the pass is
      still pending. */
  lemma RescheduleArms(st: TimerState, events: seq<Event>, now: int, e: Event, k: Kind)
    requires WellFormed(st) && DistinctIds(events)
    requires e in events && e.weekStart == CurrentWeekStart(now)
    requires Wants(e, k) && !IsDue(Instant(e, k, now), now)
    ensures var r := Reschedule(st, events, now, false);
      && ArmedWith(r, e, k, now)
      && (forall key :: key in st.registry ==> st.registry[key] !in r.pending)
  {
    ClearAllWellFormed(st);
    InWeekDistinct(events, CurrentWeekStart(now));
    ArmedTimeout(ClearAll(st), InWeek(events, CurrentWeekStart(now)), now, e, k);
    RescheduleTimer(st, events, now);
  }

  /** For an event of this week with a time within the day the 24.8-day cap
      never binds: the timer waits exactly until the instant. */
  lemma CapNeverBinds(e: Event, k: Kind, now: int, m: int)
    requires 0 <= e.dayIndex < 7 && 0 <= m < MinutesPerDay
    requires (if k == StartKind then e.startMin else e.endMin) == At(m)
    requires !IsDue(Instant(e, k, now), now)
    ensures TimerDelay(Instant(e, k, now), now) == Instant(e, k, now).value - now
  {
    EventInstant(now, e.dayIndex, m);
    var ws := CurrentWeekStart(now);
    assert DayDateOfWeek(now, e.dayIndex) == ws + e.dayIndex;
    assert Instant(e, k, now).value < (ws + 7) * MsPerDay;
  }

  /** Any instant from Monday 5 January 1970 (day 4) to the Sunday after
      lies in the week starting on day 4, whose first weekday is day 4. */
  lemma FirstWeek(now: int)
    requires 4 * MsPerDay <= now < 11 * MsPerDay
    ensures CurrentWeekStart(now) == 4 && DayDateOfWeek(now, 0) == 4
  {
    var d := LocalDay(now);
    assert 4 <= d < 11 by {
      assert d * MsPerDay <= now < (d + 1) * MsPerDay;
    }
    SameWeek(4, d);
  }

  /** A pass over a single event of the current week, from an empty state,
      is just that event's `scheduleForEvent`. */
  lemma RescheduleOne(e: Event, now: int)
    requires e.weekStart == CurrentWeekStart(now)
    ensures Reschedule(Idle, [e], now, false) == ScheduleEvent(Idle, e, now, false)
  {
    assert ClearAll(Idle) == Idle;
    assert InWeek([e], e.weekStart) == [e] by { assert [e][..0] == []; }
    calc {
      Reschedule(Idle, [e], now, false);
      ScheduleEvents(Idle, [e], now, false);
      { assert [e][..0] == []; }
      ScheduleEvent(ScheduleEvents(Idle, [], now, false), e, now, false);
    }
  }

  /** Example: a Monday 09:00-10:00 event of the current week, asking for
      both notifications, scheduled at 08:00 that Monday, arms two timeouts
      of one and two hours and fires nothing. Day 4 is Monday 5 January 1970. */
  lemma MondayMorning(id: string, title: string, notes: string, color: string)
    ensures var e := Event(id, title, notes, color, 0, At(540), At(600), true, true, 4);
      var r := Reschedule(Idle, [e], 4 * MsPerDay + 8 * MsPerHour, false);
      && r.registry == map[Tag(StartKind, id) := 0, Tag(EndKind, id) := 1]
      && r.pending == map[0 := Timeout(3_600_000, StartKind, e), 1 := Timeout(7_200_000, EndKind, e)]
      && r.fired == []
  {
    var e := Event(id, title, notes, color, 0, At(540), At(600), true, true, 4);
    var now := 4 * MsPerDay + 8 * MsPerHour;
    FirstWeek(now);
    RescheduleOne(e, now);
    EventInstant(now, 0, 540);
    EventInstant(now, 0, 600);
    var start, end := Tag(StartKind, id), Tag(EndKind, id);
    assert start != end by { assert start[0] != end[0]; }
    var st1 := ArmTimer(Idle, start, Some(now + 3_600_000), StartKind, e, now);
    assert st1.registry == map[start := 0];
    var r := ArmTimer(st1, end, Some(now + 7_200_000), EndKind, e, now);
    assert r == ScheduleEvent(Idle, e, now, false);
    assert r.registry == map[start := 0, end := 1];
  }

  /** Every `scheduleAll()` in Timer Mode runs once more the callback of each
      wanted notification of the week whose instant has passed: two passes
      at the same moment deliver each of them twice. */
  lemma RescheduleRefires(st: TimerState, events: seq<Event>, now: int)
    requires WellFormed(st)
    ensures var week := InWeek(events, CurrentWeekStart(now));
      Reschedule(Reschedule(st, events, now, false), events, now, false).fired
        == st.fired + Firings(week, now) + Firings(week, now)
  {
    RescheduleTimer(st, events, now);
    RescheduleTimer(Reschedule(st, events, now, false), events, now);
  }

  /** An instant that passed days ago still fires at once: the Monday 09:00
      start notification runs immediately when the week is scheduled on
      Wednesday at noon. */
  lemma PastDayFires(id: string, title: string, notes: string, color: string)
    ensures var e := Event(id, title, notes, color, 0, At(540), NoTime, true, false, 4);
      Reschedule(Idle, [e], 6 * MsPerDay + 12 * MsPerHour, false).fired == [Firing(StartKind, e)]
  {
    var e := Event(id, title, notes, color, 0, At(540), NoTime, true, false, 4);
    var now := 6 * MsPerDay + 12 * MsPerHour;
    FirstWeek(now);
    RescheduleOne(e, now);
    EventInstant(now, 0, 540);
    assert StartInstant(e, now) == Some(4 * MsPerDay + 540 * MsPerMinute);
  }

  // ----- the scheduler in place -----

  /** `state.timers` together with the host's pending timeouts. Whether the
      platform offers timestamp-triggered notifications is probed once, at
      construction. The logs of immediate firings and of deferred
      registrations record effects that leave the page. */
  class Scheduler {
    var timers: map<string, nat>
    var pending: map<nat, Timeout>
    var nextHandle: nat
    ghost var fired: seq<Firing>
    ghost var deferred: seq<Registration>
    const deferredMode: bool

    ghost function State(): TimerState
      reads this
    {
      TimerState(timers, pending, nextHandle, fired, deferred)
    }

    ghost predicate Valid()
      reads this
    {
      WellFormed(State())
    }

    constructor(deferredMode: bool)
      ensures Valid() && State() == Idle
      ensures this.deferredMode == deferredMode
    {
      timers := map[];
      pending := map[];
      nextHandle := 0;
      fired := [];
      deferred := [];
      this.deferredMode := deferredMode;
    }

    /** `setLocalTimer(key, when, () => showNow(e, kind))`. */
    method SetLocalTimer(key: string, when: Option<int>, kind: Kind, e: Event, now: int)
      requires Valid()
      modifies this
      ensures Valid()
      ensures State() == ArmTimer(old(State()), key, when, kind, e, now)
    {
      ArmTimerWellFormed(State(), key, when, kind, e, now);
      if IsDue(when, now) {
        fired := fired + [Firing(kind, e)];
        return;
      }
      var handle := nextHandle;
      nextHandle := nextHandle + 1;
      pending := pending[handle := Timeout(TimerDelay(when, now), kind, e)];
      timers := timers[key := handle];
    }

    /** `clearAllTimers()`: `clearTimeout` on every registered handle, then
        an empty registry. */
    method ClearAllTimers()
      requires Valid()
      modifies this
      ensures Valid()
      ensures State() == ClearAll(old(State()))
    {
      ClearAllWellFormed(State());
      var handles := timers.Values;
      while handles != {}
        invariant handles <= old(timers).Values
        invariant pending == old(pending) - (old(timers).Values - handles)
        invariant timers == old(timers) && nextHandle == old(nextHandle)
        invariant fired == old(fired) && deferred == old(deferred)
        decreases handles
      {
        var h :| h in handles;
        pending := pending - {h};
        handles := handles - {h};
      }
      timers := map[];
    }

    /** `scheduleForEvent(e)`. */
    method ScheduleForEvent(e: Event, now: int)
      requires Valid()
      modifies this
      ensures Valid()
      ensures State() == ScheduleEvent(old(State()), e, now, deferredMode)
    {
      if e.notifyStart {
        DeliverOne(e, StartKind, StartInstant(e, now), now);
      }
      if WantsEnd(e) {
        DeliverOne(e, EndKind, EndInstant(e, now), now);
      }
    }

    /** One notification: a platform registration in Deferred Mode, a local
        timer otherwise. */
    method DeliverOne(e: Event, k: Kind, when: Option<int>, now: int)
      requires Valid()
      modifies this
      ensures Valid()
      ensures State() == Deliver(old(State()), e, k, when, now, deferredMode)
    {
      if deferredMode {
        deferred := deferred + [Registration(k, e, when, now)];
      } else {
        SetLocalTimer(Tag(k, e.id), when, k, e, now);
      }
    }

    /** `scheduleAll()`: clear every timer, then schedule each event of the
        current week, in list order. */
    method ScheduleAll(events: seq<Event>, now: int)
      requires Valid()
      modifies this
      ensures Valid()
      ensures State() == Reschedule(old(State()), events, now, deferredMode)
    {
      ClearAllTimers();
      ghost var cleared := State();
      var week := InWeek(events, CurrentWeekStart(now));
      for i := 0 to |week|
        invariant Valid()
        invariant State() == ScheduleEvents(cleared, week[..i], now, deferredMode)
      {
        assert week[..i + 1] == week[..i] + [week[i]];
        ScheduleEventsSnoc(cleared, week[..i], week[i], now, deferredMode);
        ScheduleForEvent(week[i], now);
      }
      assert week[..|week|] == week;
    }
  }
}
