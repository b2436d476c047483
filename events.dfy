/** The event records of the calendar, the validation of the event form, the
    list operations behind add, edit and delete, and the current-week view
    (app.js lines 3-4, 96-103, 292-363, 380). */
module Events {
  import opened Wrappers
  import opened Text
  import opened TimeModel

  /** One calendar entry. `weekStart` is the week key: the day number of
      the Monday of the week the event was created in. */
  datatype Event = Event(
    id: string,
    title: string,
    notes: string,
    color: string,
    dayIndex: int,
    startMin: TimeValue,
    endMin: TimeValue,
    notifyStart: bool,
    notifyEnd: bool,
    weekStart: int)

  /** What the event form holds when it is submitted. `color` is the value
      of the checked colour radio button, if one is checked. */
  datatype EventForm = EventForm(
    title: string,
    day: int,
    start: string,
    end: string,
    color: Option<string>,
    notifyStart: bool,
    notifyEnd: bool,
    notes: string)

  datatype FormError = EmptyTitle | EndBeforeStart

  /** Per-week settings. */
  datatype Settings = Settings(weekEmoji: string, weekNote: string, soundOn: bool)

  const DefaultSettings := Settings("\U{1F4C5}", "", false)

  const WeekNoteLimit := 120

  /** The UTF-16 code units a character takes in a JavaScript string: two
      (a surrogate pair) outside the Basic Multilingual Plane. */
  function Utf16Units(c: char): nat {
    if c as int < 0x1_0000 then 1 else 2
  }

  /** A JavaScript string's `length`. */
  function Utf16Length(s: string): nat {
    if s == [] then 0 else Utf16Length(s[..|s| - 1]) + Utf16Units(s[|s| - 1])
  }

  /** The week note as stored, `slice(0, 120)`: the longest prefix that
      fits in 120 code units. */
  function CapWeekNote(text: string): (r: string)
    ensures r <= text
    ensures Utf16Length(r) <= WeekNoteLimit
    ensures Utf16Length(text) <= WeekNoteLimit ==> r == text
    ensures Utf16Length(text) > WeekNoteLimit ==>
      && |r| < |text|
      && Utf16Length(text[..|r| + 1]) > WeekNoteLimit
      && Utf16Length(r) >= WeekNoteLimit - 1
    decreases |text|
  {
    if Utf16Length(text) <= WeekNoteLimit then text
    else
      var p := text[..|text| - 1];
      var r := CapWeekNote(p);
      assert r == text[..|r|];
      if Utf16Length(p) > WeekNoteLimit then
        assert p[..|r| + 1] == text[..|r| + 1];
        r
      else
        assert text[..|r| + 1] == text;
        r
  }

  lemma CapWeekNoteIdempotent(text: string)
    ensures CapWeekNote(CapWeekNote(text)) == CapWeekNote(text)
  {
  }

  /** Every character in the Basic Multilingual Plane. */
  predicate AllBmp(s: string) {
    forall i :: 0 <= i < |s| ==> s[i] as int < 0x1_0000
  }

  /** Every character outside the Basic Multilingual Plane, as emoji are. */
  predicate AllAstral(s: string) {
    forall i :: 0 <= i < |s| ==> s[i] as int >= 0x1_0000
  }

  lemma {:induction false} BmpLength(s: string)
    requires AllBmp(s)
    ensures Utf16Length(s) == |s|
  {
    if s != [] {
      BmpLength(s[..|s| - 1]);
    }
  }

  lemma {:induction false} AstralLength(s: string)
    requires AllAstral(s)
    ensures Utf16Length(s) == 2 * |s|
  {
    if s != [] {
      AstralLength(s[..|s| - 1]);
    }
  }

  /** A note of Basic Multilingual Plane characters keeps its first 120. */
  lemma CapBmp(text: string)
    requires AllBmp(text)
    ensures CapWeekNote(text) == if |text| <= WeekNoteLimit then text else text[..WeekNoteLimit]
  {
    var r := CapWeekNote(text);
    BmpLength(text);
    if |text| > WeekNoteLimit {
      assert r == text[..|r|] && |r| < |text|;
      assert AllBmp(r);
      BmpLength(r);
      var q := text[..|r| + 1];
      assert AllBmp(q);
      BmpLength(q);
      assert |r| == WeekNoteLimit;
    }
  }

  /** A note of emoji keeps its first 60: each takes two code units. */
  lemma CapAstral(text: string)
    requires AllAstral(text)
    ensures CapWeekNote(text) == if |text| <= WeekNoteLimit / 2 then text else text[..WeekNoteLimit / 2]
  {
    var r := CapWeekNote(text);
    AstralLength(text);
    if |text| > WeekNoteLimit / 2 {
      assert r == text[..|r|] && |r| < |text|;
      assert AllAstral(r);
      AstralLength(r);
      var q := text[..|r| + 1];
      assert AllAstral(q);
      AstralLength(q);
      assert |r| == WeekNoteLimit / 2;
    }
  }

  /** The colour chosen on the form; `blue` when none (or an empty one) is checked. */
  function FormColor(checked: Option<string>): (r: string)
    ensures r != ""
    ensures checked.Some? && checked.value != "" ==> r == checked.value
    ensures checked.None? || checked.value == "" ==> r == "blue"
  {
    if checked.Some? && checked.value != "" then checked.value else "blue"
  }

  /** JavaScript's `a < b` on two results of `minutesFromTimeStr`: `null`
      counts as 0 and any comparison with NaN is false. */
  predicate JsLess(a: TimeValue, b: TimeValue) {
    match (a, b)
    case (NaNTime, _) => false
    case (_, NaNTime) => false
    case _ => NumericTime(a) < NumericTime(b)
  }

  /** The number a non-NaN time stands for in arithmetic: `null` is 0. */
  function NumericTime(v: TimeValue): int
    requires !v.NaNTime?
  {
    if v.At? then v.minutes else 0
  }

  /** The end-before-start check of the add form: `endMin != null && endMin < startMin`. */
  predicate EndsBeforeStart(startMin: TimeValue, endMin: TimeValue) {
    endMin != NoTime && JsLess(endMin, startMin)
  }

  /** `addEventFromForm` up to the push: the title is trimmed and must not be
      empty, then the end must not lie before the start; otherwise the new
      event gets the given id and the current week key. */
  function NewEvent(form: EventForm, id: string, now: int): (r: Result<Event, FormError>)
    ensures r.Failure? <==>
      Trim(form.title) == "" ||
      EndsBeforeStart(MinutesFromTimeStr(form.start), MinutesFromTimeStr(form.end))
    ensures r == Failure(EmptyTitle) <==> Trim(form.title) == ""
    ensures r.Success? ==>
      var e := r.value;
      && e.id == id && e.weekStart == CurrentWeekStart(now)
      && e.title == Trim(form.title) != ""
      && e.dayIndex == form.day
      && e.startMin == MinutesFromTimeStr(form.start)
      && e.endMin == MinutesFromTimeStr(form.end)
      && (e.endMin.At? && e.startMin.At? ==> e.startMin.minutes <= e.endMin.minutes)
      && e.color == FormColor(form.color)
      && e.notes == Trim(form.notes)
      && e.notifyStart == form.notifyStart && e.notifyEnd == form.notifyEnd
  {
    var title := Trim(form.title);
    if title == "" then Failure(EmptyTitle)
    else
      var startMin := MinutesFromTimeStr(form.start);
      var endMin := MinutesFromTimeStr(form.end);
      if EndsBeforeStart(startMin, endMin) then Failure(EndBeforeStart)
      else Success(Event(id, title, Trim(form.notes), FormColor(form.color), form.day,
                         startMin, endMin, form.notifyStart, form.notifyEnd,
                         CurrentWeekStart(now)))
  }

  /** The submit handler of `editEvent`: every form field overwrites the
      event's field as it is, without the checks of the add form; the id and
      the week key stay. */
  function ApplyEdit(e: Event, form: EventForm): (r: Event)
    ensures r.id == e.id && r.weekStart == e.weekStart
    ensures r.title == Trim(form.title) && r.notes == Trim(form.notes)
    ensures r.dayIndex == form.day && r.color == FormColor(form.color)
    ensures r.startMin == MinutesFromTimeStr(form.start)
    ensures r.endMin == MinutesFromTimeStr(form.end)
    ensures r.notifyStart == form.notifyStart && r.notifyEnd == form.notifyEnd
  {
    e.(title := Trim(form.title),
       dayIndex := form.day,
       startMin := MinutesFromTimeStr(form.start),
       endMin := MinutesFromTimeStr(form.end),
       color := FormColor(form.color),
       notifyStart := form.notifyStart,
       notifyEnd := form.notifyEnd,
       notes := Trim(form.notes))
  }

  /** The edit form stores what the add form refuses: a blank title, and an
      "HH:MM" end earlier than the "HH:MM" start, which the edited event
      then carries as minutes. */
  lemma EditSkipsValidation(e: Event, form: EventForm, now: int)
    requires Trim(form.title) == "" || (IsClockText(form.start) && IsClockText(form.end)
      && ClockMinutes(form.end) < ClockMinutes(form.start))
    ensures NewEvent(form, e.id, now).Failure?
    ensures var edited := ApplyEdit(e, form);
      && edited.id == e.id
      && (Trim(form.title) == "" ==> edited.title == "")
      && (Trim(form.title) != "" ==>
            && EndsBeforeStart(edited.startMin, edited.endMin)
            && edited.startMin == At(ClockMinutes(form.start))
            && edited.endMin == At(ClockMinutes(form.end)))
  {
    if Trim(form.title) != "" {
      ClockTextMinutes(form.start);
      ClockTextMinutes(form.end);
    }
  }

  /** `events.findIndex(x => x.id === id)`. */
  function FindIndex(events: seq<Event>, id: string): (r: Option<nat>)
    ensures r.None? <==> forall i :: 0 <= i < |events| ==> events[i].id != id
    ensures r.Some? ==> r.value < |events| && events[r.value].id == id
    ensures r.Some? ==> forall i :: 0 <= i < r.value ==> events[i].id != id
  {
    if |events| == 0 then None
    else if events[0].id == id then Some(0)
    else match FindIndex(events[1..], id)
      case None => None
      case Some(i) => Some(i + 1)
  }

  /** `deleteEvent(id)` on the list: `splice(idx, 1)` at the first event
      with the id, nothing when there is none. */
  function RemoveFirst(events: seq<Event>, id: string): (r: seq<Event>)
    ensures FindIndex(events, id).None? ==> r == events
    ensures FindIndex(events, id).Some? ==>
      var i := FindIndex(events, id).value;
      && |r| == |events| - 1
      && multiset(r) == multiset(events) - multiset{events[i]}
      && (forall j :: 0 <= j < i ==> r[j] == events[j])
      && (forall j :: i <= j < |r| ==> r[j] == events[j + 1])
  {
    match FindIndex(events, id)
    case None => events
    case Some(i) =>
      assert events == events[..i] + [events[i]] + events[i + 1..];
      events[..i] + events[i + 1..]
  }

  /** The submit of `editEvent(id)` on the list: the first event with the id
      gets the form's fields; every other position is left as it was. */
  function EditFirst(events: seq<Event>, id: string, form: EventForm): (r: seq<Event>)
    ensures FindIndex(events, id).None? ==> r == events
    ensures |r| == |events|
    ensures FindIndex(events, id).Some? ==>
      var i := FindIndex(events, id).value;
      && r[i] == ApplyEdit(events[i], form)
      && (forall j :: 0 <= j < |r| && j != i ==> r[j] == events[j])
  {
    match FindIndex(events, id)
    case None => events
    case Some(i) => events[i := ApplyEdit(events[i], form)]
  }

  /** Editing keeps every id and every week key where it was. */
  lemma EditKeepsIds(events: seq<Event>, id: string, form: EventForm)
    ensures forall j :: 0 <= j < |events| ==>
      EditFirst(events, id, form)[j].id == events[j].id
      && EditFirst(events, id, form)[j].weekStart == events[j].weekStart
  {
  }

  /** With distinct ids, deleting an id removes it from the list, and the
      ids stay distinct. */
  lemma RemoveFirstDistinct(events: seq<Event>, id: string)
    requires DistinctIds(events)
    ensures DistinctIds(RemoveFirst(events, id))
    ensures forall e :: e in RemoveFirst(events, id) ==> e.id != id
  {
    var r := RemoveFirst(events, id);
    if FindIndex(events, id).Some? {
      var i := FindIndex(events, id).value;
      forall j, k | 0 <= j < k < |r| ensures r[j].id != r[k].id {
        var j', k' := if j < i then j else j + 1, if k < i then k else k + 1;
        assert r[j] == events[j'] && r[k] == events[k'];
      }
      forall e | e in r ensures e.id != id {
        var j :| 0 <= j < |r| && r[j] == e;
        var j' := if j < i then j else j + 1;
        assert e == events[j'] && j' != i;
      }
    }
  }

  /** `events.filter(e => e.weekStartISO === ws)`. */
  function InWeek(events: seq<Event>, ws: int): (r: seq<Event>)
    ensures |r| <= |events|
    ensures forall e :: e in r <==> e in events && e.weekStart == ws
    ensures forall i :: 0 <= i < |r| ==> r[i].weekStart == ws
    ensures multiset(r) <= multiset(events)
  {
    if |events| == 0 then []
    else
      var rest := InWeek(events[..|events| - 1], ws);
      var last := events[|events| - 1];
      assert events == events[..|events| - 1] + [last];
      if last.weekStart == ws then rest + [last] else rest
  }

  lemma InWeekAppend(events: seq<Event>, e: Event, ws: int)
    ensures InWeek(events + [e], ws) == InWeek(events, ws) + (if e.weekStart == ws then [e] else [])
  {
    assert (events + [e])[..|events|] == events;
  }

  /** No two events share an id (`crypto.randomUUID()` gives each a fresh one). */
  predicate DistinctIds(events: seq<Event>) {
    forall i, j :: 0 <= i < j < |events| ==> events[i].id != events[j].id
  }

  /** The week filter keeps ids distinct. */
  lemma {:induction false} InWeekDistinct(events: seq<Event>, ws: int)
    requires DistinctIds(events)
    ensures DistinctIds(InWeek(events, ws))
  {
    if |events| > 0 {
      var init, last := events[..|events| - 1], events[|events| - 1];
      InWeekDistinct(init, ws);
      var rest := InWeek(init, ws);
      forall i | 0 <= i < |rest| ensures rest[i].id != last.id {
        assert rest[i] in init;
        var j :| 0 <= j < |init| && init[j] == rest[i];
        assert events[j] == init[j];
      }
    }
  }

  // ----- the current-week view: stable sort by (dayIndex, startMin) -----

  /** The comparator's key. A `null` start counts as 0, as in `NumericTime`;
      a NaN start, which makes the comparator's result NaN, is put at 0 too. */
  datatype Slot = Slot(day: int, start: int)

  function StartKey(v: TimeValue): int {
    if v.NaNTime? then 0 else NumericTime(v)
  }

  function SlotOf(e: Event): Slot {
    Slot(e.dayIndex, StartKey(e.startMin))
  }

  /** `a.dayIndex - b.dayIndex || a.startMin - b.startMin` is negative. */
  predicate Before(a: Slot, b: Slot) {
    a.day < b.day || (a.day == b.day && a.start < b.start)
  }

  predicate SlotSorted(s: seq<Event>) {
    forall i, j :: 0 <= i < j < |s| ==> !Before(SlotOf(s[j]), SlotOf(s[i]))
  }

  /** The events of `s` in one slot, in their order in `s`. */
  function InSlot(s: seq<Event>, k: Slot): seq<Event> {
    if |s| == 0 then []
    else InSlot(s[..|s| - 1], k) + (if SlotOf(s[|s| - 1]) == k then [s[|s| - 1]] else [])
  }

  /** Places `e` after every element of `s` that it does not come before. */
  function Insert(s: seq<Event>, e: Event): seq<Event> {
    if |s| == 0 then [e]
    else if Before(SlotOf(e), SlotOf(s[|s| - 1])) then Insert(s[..|s| - 1], e) + [s[|s| - 1]]
    else s + [e]
  }

  /** The `sort` of the view: a stable insertion sort. */
  function SortBySlot(s: seq<Event>): seq<Event> {
    if |s| == 0 then [] else Insert(SortBySlot(s[..|s| - 1]), s[|s| - 1])
  }

  lemma {:induction false} InsertKeeps(s: seq<Event>, e: Event)
    ensures multiset(Insert(s, e)) == multiset(s) + multiset{e}
    ensures |Insert(s, e)| == |s| + 1
  {
    if |s| > 0 && Before(SlotOf(e), SlotOf(s[|s| - 1])) {
      InsertKeeps(s[..|s| - 1], e);
      assert s == s[..|s| - 1] + [s[|s| - 1]];
    }
  }

  lemma {:induction false} InsertSorted(s: seq<Event>, e: Event)
    requires SlotSorted(s)
    ensures SlotSorted(Insert(s, e))
  {
    if |s| > 0 && Before(SlotOf(e), SlotOf(s[|s| - 1])) {
      var init, last := s[..|s| - 1], s[|s| - 1];
      InsertSorted(init, e);
      InsertKeeps(init, e);
      var r := Insert(init, e);
      forall x | x in multiset(r) ensures !Before(SlotOf(last), SlotOf(x)) {
        if x != e {
          assert x in multiset(init);
          var i :| 0 <= i < |init| && init[i] == x;
          assert s[i] == x;
        }
      }
      forall i | 0 <= i < |r| ensures !Before(SlotOf(last), SlotOf(r[i])) {
        assert r[i] in multiset(r);
      }
    }
  }

  lemma {:induction false} InsertInSlot(s: seq<Event>, e: Event, k: Slot)
    requires SlotSorted(s)
    ensures InSlot(Insert(s, e), k) == InSlot(s, k) + (if SlotOf(e) == k then [e] else [])
  {
    if |s| == 0 {
      assert InSlot([e], k) == InSlot([], k) + (if SlotOf(e) == k then [e] else []);
    } else {
      var init, last := s[..|s| - 1], s[|s| - 1];
      if Before(SlotOf(e), SlotOf(last)) {
        InsertInSlot(init, e, k);
        InsertKeeps(init, e);
        var r := Insert(init, e);
        assert (r + [last])[..|r|] == r;
        assert SlotOf(e) != SlotOf(last);
      } else {
        assert (s + [e])[..|s|] == s;
      }
    }
  }

  /** The sorted view is ordered by (dayIndex, startMin). */
  lemma {:induction false} SortSorted(s: seq<Event>)
    ensures SlotSorted(SortBySlot(s))
  {
    if |s| > 0 {
      SortSorted(s[..|s| - 1]);
      InsertSorted(SortBySlot(s[..|s| - 1]), s[|s| - 1]);
    }
  }

  /** The sorted view holds the same events as its input. */
  lemma {:induction false} SortPermutes(s: seq<Event>)
    ensures multiset(SortBySlot(s)) == multiset(s)
  {
    if |s| > 0 {
      SortPermutes(s[..|s| - 1]);
      InsertKeeps(SortBySlot(s[..|s| - 1]), s[|s| - 1]);
      assert s == s[..|s| - 1] + [s[|s| - 1]];
    }
  }

  /** Stability: events in the same slot keep their insertion order. */
  lemma {:induction false} SortStable(s: seq<Event>, k: Slot)
    ensures InSlot(SortBySlot(s), k) == InSlot(s, k)
  {
    if |s| > 0 {
      SortStable(s[..|s| - 1], k);
      SortSorted(s[..|s| - 1]);
      InsertInSlot(SortBySlot(s[..|s| - 1]), s[|s| - 1], k);
    }
  }

  /** The list `renderCalendar` draws: this week's events in slot order. */
  function WeekView(events: seq<Event>, ws: int): seq<Event> {
    SortBySlot(InWeek(events, ws))
  }

  /** The view holds exactly the events stamped with the week key, each as
      often as in the list, sorted by day then start, ties in list order. */
  lemma WeekViewSpec(events: seq<Event>, ws: int)
    ensures multiset(WeekView(events, ws)) == multiset(InWeek(events, ws))
    ensures forall e :: e in WeekView(events, ws) <==> e in events && e.weekStart == ws
    ensures SlotSorted(WeekView(events, ws))
    ensures forall k :: InSlot(WeekView(events, ws), k) == InSlot(InWeek(events, ws), k)
  {
    var f := InWeek(events, ws);
    SortPermutes(f);
    SortSorted(f);
    forall k ensures InSlot(WeekView(events, ws), k) == InSlot(f, k) {
      SortStable(f, k);
    }
    forall e ensures e in WeekView(events, ws) <==> e in f {
      assert e in WeekView(events, ws) <==> e in multiset(WeekView(events, ws));
      assert e in f <==> e in multiset(f);
    }
  }
}
