/** The page state of the calendar and the handlers that change it
    (app.js lines 8-18, 42-54, 292-382 and 433-460): the event list and
    settings of the shown week, the per-week store they are saved to, the
    week-rollover poll, and the scheduler every change is handed to. */
module App {
  import opened Wrappers
  import opened Text
  import opened TimeModel
  import opened Events
  import opened Delivery
  import opened Scheduling

  /** The events stored for a week; a week with nothing stored has none. */
  function LoadedEvents(saved: map<int, seq<Event>>, ws: int): seq<Event> {
    if ws in saved then saved[ws] else []
  }

  /** The settings after a load: the stored ones when the week has any,
      otherwise the current ones, untouched. */
  function LoadedSettings(saved: map<int, Settings>, ws: int, current: Settings): Settings {
    if ws in saved then saved[ws] else current
  }

  /** The week the page believes it shows: the week key of the first event,
      or the stored marker when the list is empty. */
  function LastWeek(events: seq<Event>, marker: Option<int>): Option<int> {
    if |events| > 0 then Some(events[0].weekStart) else marker
  }

  /** The poll's test: a reload is due when that week is not the current one. */
  predicate RolloverDue(events: seq<Event>, marker: Option<int>, now: int) {
    LastWeek(events, marker) != Some(CurrentWeekStart(now))
  }

  /** A page showing the events of the week of `before` is not due at
      `before`, and is due once the clock is in a later week. */
  lemma RolloverDetectsNewWeek(events: seq<Event>, marker: Option<int>, before: int, now: int)
    requires forall e :: e in events ==> e.weekStart == CurrentWeekStart(before)
    requires events == [] ==> marker == Some(CurrentWeekStart(before))
    requires LocalDay(now) >= CurrentWeekStart(before) + 7
    ensures !RolloverDue(events, marker, before)
    ensures RolloverDue(events, marker, now)
  {
    if events != [] {
      assert events[0] in events;
    }
  }

  /** After a reload whose stored list holds only events stamped with the
      current week, the next poll in that week does nothing. */
  lemma RolloverSettles(loaded: seq<Event>, now: int)
    requires forall e :: e in loaded ==> e.weekStart == CurrentWeekStart(now)
    ensures !RolloverDue(loaded, Some(CurrentWeekStart(now)), now)
  {
    if loaded != [] {
      assert loaded[0] in loaded;
    }
  }

  /** A created event is stamped with the current week, so it is in this
      week's view and comes last among the week's events before sorting. */
  lemma AddedEventInView(events: seq<Event>, form: EventForm, id: string, now: int)
    requires NewEvent(form, id, now).Success?
    ensures var e := NewEvent(form, id, now).value;
      var ws := CurrentWeekStart(now);
      && InWeek(events + [e], ws) == InWeek(events, ws) + [e]
      && e in WeekView(events + [e], ws)
  {
    var e := NewEvent(form, id, now).value;
    InWeekAppend(events, e, CurrentWeekStart(now));
    WeekViewSpec(events + [e], CurrentWeekStart(now));
  }

  /** A form with a title whose "HH:MM" end is earlier than its "HH:MM"
      start is refused, for every pair of such times. */
  lemma EndBeforeStartRejected(form: EventForm, id: string, now: int)
    requires Trim(form.title) != ""
    requires IsClockText(form.start) && IsClockText(form.end)
    requires ClockMinutes(form.end) < ClockMinutes(form.start)
    ensures NewEvent(form, id, now) == Failure(EndBeforeStart)
  {
    ClockTextMinutes(form.start);
    ClockTextMinutes(form.end);
  }

  /** Two such times, written as the form's time inputs produce them. */
  lemma TenToFiveRejected(title: string, id: string, now: int)
    requires Trim(title) != ""
    ensures NewEvent(EventForm(title, 0, TimeStrFromMinutes(600), TimeStrFromMinutes(300), None, false, false, ""), id, now)
      == Failure(EndBeforeStart)
  {
    TimeStrIsClockText(600);
    TimeStrIsClockText(300);
    EndBeforeStartRejected(EventForm(title, 0, TimeStrFromMinutes(600), TimeStrFromMinutes(300), None, false, false, ""), id, now);
  }

  /** After an edit and the `scheduleAll()` that follows it, the edited
      event's timer is the one for its new fields, and no timeout registered
      before the pass is still pending. */
  lemma EditRearms(st: TimerState, events: seq<Event>, id: string, form: EventForm, now: int, k: Kind)
    requires WellFormed(st) && DistinctIds(events)
    requires FindIndex(events, id).Some?
    requires events[FindIndex(events, id).value].weekStart == CurrentWeekStart(now)
    requires var e := ApplyEdit(events[FindIndex(events, id).value], form);
      Wants(e, k) && !IsDue(Instant(e, k, now), now)
    ensures var e := ApplyEdit(events[FindIndex(events, id).value], form);
      var r := Reschedule(st, EditFirst(events, id, form), now, false);
      && Tag(k, id) in r.registry
      && r.registry[Tag(k, id)] in r.pending
      && r.pending[r.registry[Tag(k, id)]] == Timeout(TimerDelay(Instant(e, k, now), now), k, e)
      && (forall key :: key in st.registry ==> st.registry[key] !in r.pending)
  {
    var i := FindIndex(events, id).value;
    var edited := EditFirst(events, id, form);
    EditKeepsIds(events, id, form);
    assert DistinctIds(edited) by {
      forall a, b | 0 <= a < b < |edited| ensures edited[a].id != edited[b].id {
        assert edited[a].id == events[a].id && edited[b].id == events[b].id;
      }
    }
    assert edited[i] in edited;
    RescheduleArms(st, edited, now, edited[i], k);
  }

  /** The page: `state.events`, `state.settings`, the week-keyed store they
      are saved to (`rk_events_<week>`, `rk_settings_<week>`), the
      `rk_last_ws` marker, and the scheduler. Stored values are kept parsed. */
  class Calendar {
    var events: seq<Event>
    var settings: Settings
    var savedEvents: map<int, seq<Event>>
    var savedSettings: map<int, Settings>
    var marker: Option<int>
    const sched: Scheduler

    ghost predicate Valid()
      reads this, sched
    {
      sched.Valid()
    }

    /** The page as the script starts it, over whatever the store holds. */
    constructor(savedEvents: map<int, seq<Event>>, savedSettings: map<int, Settings>,
                marker: Option<int>, deferredMode: bool)
      ensures Valid() && fresh(sched)
      ensures events == [] && settings == DefaultSettings
      ensures this.savedEvents == savedEvents && this.savedSettings == savedSettings
      ensures this.marker == marker
      ensures sched.State() == Idle && sched.deferredMode == deferredMode
    {
      events := [];
      settings := DefaultSettings;
      this.savedEvents := savedEvents;
      this.savedSettings := savedSettings;
      this.marker := marker;
      sched := new Scheduler(deferredMode);
    }

    /** `load()`: the current week's stored list (or none), and the stored
        settings when there are any. */
    method Load(now: int)
      modifies this
      ensures var ws := CurrentWeekStart(now);
        && events == LoadedEvents(old(savedEvents), ws)
        && settings == LoadedSettings(old(savedSettings), ws, old(settings))
      ensures savedEvents == old(savedEvents) && savedSettings == old(savedSettings)
      ensures marker == old(marker)
    {
      var ws := CurrentWeekStart(now);
      events := if ws in savedEvents then savedEvents[ws] else [];
      if ws in savedSettings {
        settings := savedSettings[ws];
      }
    }

    /** `save()`: the list and the settings under the current week. */
    method Save(now: int)
      modifies this
      ensures savedEvents == old(savedEvents)[CurrentWeekStart(now) := events]
      ensures savedSettings == old(savedSettings)[CurrentWeekStart(now) := settings]
      ensures events == old(events) && settings == old(settings) && marker == old(marker)
    {
      var ws := CurrentWeekStart(now);
      savedEvents := savedEvents[ws := events];
      savedSettings := savedSettings[ws := settings];
    }

    /** The start-up sequence: load the week, then schedule it. */
    method Start(now: int)
      requires Valid()
      modifies this, sched
      ensures Valid()
      ensures events == LoadedEvents(old(savedEvents), CurrentWeekStart(now))
      ensures settings == LoadedSettings(old(savedSettings), CurrentWeekStart(now), old(settings))
      ensures sched.State() == Reschedule(old(sched.State()), events, now, sched.deferredMode)
      ensures savedEvents == old(savedEvents) && savedSettings == old(savedSettings)
      ensures marker == old(marker)
    {
      Load(now);
      sched.ScheduleAll(events, now);
    }

    /** `addEventFromForm`: a refused form changes nothing; an accepted one
        appends the new event, saves, and schedules only that event. */
    method AddEventFromForm(form: EventForm, id: string, now: int) returns (err: Option<FormError>)
      requires Valid()
      modifies this, sched
      ensures Valid()
      ensures err.Some? <==> NewEvent(form, id, now).Failure?
      ensures err.Some? ==> err.value == NewEvent(form, id, now).error
      ensures err.Some? ==>
        && events == old(events) && savedEvents == old(savedEvents)
        && savedSettings == old(savedSettings)
        && sched.State() == old(sched.State())
      ensures err.None? ==>
        var e := NewEvent(form, id, now).value;
        && events == old(events) + [e]
        && savedEvents == old(savedEvents)[CurrentWeekStart(now) := events]
        && savedSettings == old(savedSettings)[CurrentWeekStart(now) := settings]
        && sched.State() == ScheduleEvent(old(sched.State()), e, now, sched.deferredMode)
      ensures settings == old(settings) && marker == old(marker)
    {
      match NewEvent(form, id, now)
      case Failure(why) =>
        return Some(why);
      case Success(e) =>
        events := events + [e];
        Save(now);
        sched.ScheduleForEvent(e, now);
        return None;
    }

    /** The submit handler installed by `editEvent(id)`: when the id is in
        the list, its first event takes the form's fields, then save and
        `scheduleAll()`. */
    method SubmitEdit(id: string, form: EventForm, now: int) returns (found: bool)
      requires Valid()
      modifies this, sched
      ensures Valid()
      ensures found <==> FindIndex(old(events), id).Some?
      ensures events == EditFirst(old(events), id, form)
      ensures !found ==>
        && savedEvents == old(savedEvents) && savedSettings == old(savedSettings)
        && sched.State() == old(sched.State())
      ensures found ==>
        && savedEvents == old(savedEvents)[CurrentWeekStart(now) := events]
        && savedSettings == old(savedSettings)[CurrentWeekStart(now) := settings]
        && sched.State() == Reschedule(old(sched.State()), events, now, sched.deferredMode)
      ensures settings == old(settings) && marker == old(marker)
    {
      var idx := FindIndex(events, id);
      if idx.None? {
        return false;
      }
      events := events[idx.value := ApplyEdit(events[idx.value], form)];
      Save(now);
      sched.ScheduleAll(events, now);
      return true;
    }

    /** `deleteEvent(id)`: nothing for an unknown id; otherwise the first
        event with the id is spliced out, then save and `scheduleAll()`. */
    method DeleteEvent(id: string, now: int) returns (found: bool)
      requires Valid()
      modifies this, sched
      ensures Valid()
      ensures found <==> FindIndex(old(events), id).Some?
      ensures events == RemoveFirst(old(events), id)
      ensures !found ==>
        && savedEvents == old(savedEvents) && savedSettings == old(savedSettings)
        && sched.State() == old(sched.State())
      ensures found ==>
        && savedEvents == old(savedEvents)[CurrentWeekStart(now) := events]
        && savedSettings == old(savedSettings)[CurrentWeekStart(now) := settings]
        && sched.State() == Reschedule(old(sched.State()), events, now, sched.deferredMode)
      ensures settings == old(settings) && marker == old(marker)
    {
      var idx := FindIndex(events, id);
      if idx.None? {
        return false;
      }
      events := events[..idx.value] + events[idx.value + 1..];
      Save(now);
      sched.ScheduleAll(events, now);
      return true;
    }

    /** The week-note input: what fits in 120 UTF-16 code units is kept and saved. */
    method SetWeekNote(text: string, now: int)
      modifies this
      ensures settings == old(settings).(weekNote := CapWeekNote(text))
      ensures events == old(events)
      ensures savedSettings == old(savedSettings)[CurrentWeekStart(now) := settings]
      ensures savedEvents == old(savedEvents)[CurrentWeekStart(now) := events]
      ensures marker == old(marker)
    {
      settings := settings.(weekNote := CapWeekNote(text));
      Save(now);
    }

    /** The week-emoji picker. */
    method SetWeekEmoji(emoji: string, now: int)
      modifies this
      ensures settings == old(settings).(weekEmoji := emoji)
      ensures events == old(events)
      ensures savedSettings == old(savedSettings)[CurrentWeekStart(now) := settings]
      ensures savedEvents == old(savedEvents)[CurrentWeekStart(now) := events]
      ensures marker == old(marker)
    {
      settings := settings.(weekEmoji := emoji);
      Save(now);
    }

    /** The sound checkbox. */
    method SetSoundOn(on: bool, now: int)
      modifies this
      ensures settings == old(settings).(soundOn := on)
      ensures events == old(events)
      ensures savedSettings == old(savedSettings)[CurrentWeekStart(now) := settings]
      ensures savedEvents == old(savedEvents)[CurrentWeekStart(now) := events]
      ensures marker == old(marker)
    {
      settings := settings.(soundOn := on);
      Save(now);
    }

    /** The once-a-minute poll: when the week changed, record the new week,
        reload it and schedule it; otherwise nothing happens. */
    method PollWeek(now: int) returns (reloaded: bool)
      requires Valid()
      modifies this, sched
      ensures Valid()
      ensures reloaded <==> RolloverDue(old(events), old(marker), now)
      ensures !reloaded ==>
        && events == old(events) && settings == old(settings) && marker == old(marker)
        && sched.State() == old(sched.State())
      ensures reloaded ==>
        var ws := CurrentWeekStart(now);
        && marker == Some(ws)
        && events == LoadedEvents(old(savedEvents), ws)
        && settings == LoadedSettings(old(savedSettings), ws, old(settings))
        && sched.State() == Reschedule(old(sched.State()), events, now, sched.deferredMode)
      ensures savedEvents == old(savedEvents) && savedSettings == old(savedSettings)
    {
      var ws := CurrentWeekStart(now);
      var last := if |events| > 0 then Some(events[0].weekStart) else marker;
      if last == Some(ws) {
        return false;
      }
      marker := Some(ws);
      Load(now);
      sched.ScheduleAll(events, now);
      return true;
    }
  }
}
