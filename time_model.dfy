/** Week and time-of-day arithmetic of the calendar (app.js lines 21-72 and 222-227).

    Instants are milliseconds on the local wall clock, as `Date.getTime()`
    and `Date.now()` give them; a calendar date is a day number counting
    local days from 1 January 1970, a Thursday. A day number stands for the
    local midnight that begins it. */
module TimeModel {
  import opened Wrappers
  import opened Text

  const MsPerMinute: int := 60_000
  const MsPerHour: int := 3_600_000
  const MsPerDay: int := 86_400_000
  const MinutesPerDay: int := 1440

  /** The local date of an instant. */
  function LocalDay(now: int): (d: int)
    ensures d * MsPerDay <= now < (d + 1) * MsPerDay
  {
    now / MsPerDay
  }

  /** `Date.getDay()`: 0 is Sunday, 1 is Monday, ... 6 is Saturday. */
  function JsWeekday(day: int): (w: int)
    ensures 0 <= w < 7
  {
    (day + 4) % 7
  }

  /** How many days the date lies after the Monday of its week: `(getDay()+6)%7`. */
  function MondayOffset(day: int): (k: int)
    ensures 0 <= k <= 6
  {
    (JsWeekday(day) + 6) % 7
  }

  /** `getWeekStart`: the Monday (at midnight) that begins the week of `day`. */
  function WeekStart(day: int): (ws: int)
    ensures ws <= day < ws + 7
    ensures JsWeekday(ws) == 1
  {
    var k := MondayOffset(day);
    assert JsWeekday(day - k) == 1 by {
      var w := JsWeekday(day);
      assert day + 4 == 7 * ((day + 4) / 7) + w;
      if w == 0 {
        assert day - k + 4 == 7 * ((day + 4) / 7 - 1) + 1;
      } else {
        assert day - k + 4 == 7 * ((day + 4) / 7) + 1;
      }
    }
    day - k
  }

  /** Every date of the week that begins on Monday `ws` has `ws` as its week start. */
  lemma SameWeek(ws: int, day: int)
    requires JsWeekday(ws) == 1
    requires ws <= day < ws + 7
    ensures WeekStart(day) == ws
  {
    var q := (ws + 4) / 7;
    assert ws + 4 == 7 * q + 1;
    var i := day - ws;
    if i < 6 {
      assert day + 4 == 7 * q + (1 + i);
      assert JsWeekday(day) == 1 + i;
    } else {
      assert day + 4 == 7 * (q + 1) + 0;
      assert JsWeekday(day) == 0;
    }
  }

  /** The week start of a week start is itself. */
  lemma WeekStartIdempotent(day: int)
    ensures WeekStart(WeekStart(day)) == WeekStart(day)
  {
    SameWeek(WeekStart(day), WeekStart(day));
  }

  /** `getWeekStart()` with the clock at `now`: the week key used everywhere. */
  function CurrentWeekStart(now: int): (ws: int)
    ensures ws * MsPerDay <= now < (ws + 7) * MsPerDay
    ensures JsWeekday(ws) == 1
  {
    WeekStart(LocalDay(now))
  }

  /** `dayDateOfWeek(dayIndex)`: the date `dayIndex` days after this week's Monday. */
  function DayDateOfWeek(now: int, dayIndex: int): (d: int)
    ensures 0 <= dayIndex < 7 ==> WeekStart(d) == CurrentWeekStart(now)
    ensures 0 <= dayIndex < 7 ==> MondayOffset(d) == dayIndex
  {
    var d := CurrentWeekStart(now) + dayIndex;
    if 0 <= dayIndex < 7 then
      SameWeek(CurrentWeekStart(now), d); d
    else
      d
  }

  /** `Math.floor(n / 60)`. */
  function FloorDiv60(n: int): int { n / 60 }

  /** JavaScript's `n % 60`, whose sign follows `n`. */
  function JsRem60(n: int): (r: int)
    ensures -60 < r < 60
    ensures n >= 0 ==> r == n % 60
    ensures n < 0 ==> r <= 0 && r == -((-n) % 60)
  {
    if n >= 0 then n % 60 else -((-n) % 60)
  }

  /** What `minutesFromTimeStr` returns: `null` for an empty text, a number
      of minutes, or NaN when a field of the text is not a number. */
  datatype TimeValue = NoTime | At(minutes: int) | NaNTime

  /** `minutesFromTimeStr(t)`: `h*60 + m` from the first two `:`-separated
      fields of `t`; a missing minutes field is NaN. */
  function MinutesFromTimeStr(t: string): (v: TimeValue)
    ensures v == NoTime <==> t == ""
    ensures v.At? ==> v.minutes >= 0
    ensures t != "" && ':' !in t ==> v == NaNTime
  {
    if t == "" then NoTime
    else
      var parts := Split(t, ':');
      assert ':' !in t ==> |parts| == 1 by {
        if ':' !in t { SplitNoSeparator(t, ':'); }
      }
      var h := JsNumber(parts[0]);
      var m := if |parts| >= 2 then JsNumber(parts[1]) else NaN;
      if h.Finite? && m.Finite? then At(h.value * 60 + m.value) else NaNTime
  }

  /** Two fields around a colon are read as minutes exactly when both are
      numbers: a field holding anything but white space and digits makes
      the time NaN. */
  lemma FieldsNaN(hh: string, mm: string)
    requires ':' !in hh && ':' !in mm
    ensures MinutesFromTimeStr(hh + ":" + mm) == NaNTime <==> JsNumber(hh) == NaN || JsNumber(mm) == NaN
    ensures JsNumber(hh).Finite? && JsNumber(mm).Finite? ==>
      MinutesFromTimeStr(hh + ":" + mm) == At(JsNumber(hh).value * 60 + JsNumber(mm).value)
  {
    var t := hh + ":" + mm;
    assert t == hh + [':'] + mm;
    SplitTwoFields(hh, ':', mm);
    TwoFieldMinutes(t, hh, mm);
  }

  /** A text that splits into two fields is read from those two fields. */
  lemma TwoFieldMinutes(t: string, hh: string, mm: string)
    requires t != "" && Split(t, ':') == [hh, mm]
    ensures MinutesFromTimeStr(t) ==
      var h, m := JsNumber(hh), JsNumber(mm);
      if h.Finite? && m.Finite? then At(h.value * 60 + m.value) else NaNTime
  {
  }

  /** `timeStrFromMinutes(min)`: `pad2(floor(min/60)) + ':' + pad2(min % 60)`. */
  function TimeStrFromMinutes(min: int): (r: string)
    ensures 0 <= min < MinutesPerDay ==>
      && |r| == 5 && r[2] == ':' && AllDigits(r[..2]) && AllDigits(r[3..])
      && DigitsValue(r[..2]) == min / 60 && DigitsValue(r[3..]) == min % 60
  {
    var r := Pad2(FloorDiv60(min)) + ":" + Pad2(JsRem60(min));
    assert 0 <= min ==> r[..|r| - 3] == Pad2(min / 60) && r[|r| - 2..] == Pad2(min % 60);
    r
  }

  lemma NoColonInDigits(s: string)
    requires AllDigits(s)
    ensures ':' !in s
  {
    assert forall i :: 0 <= i < |s| ==> IsDigit(s[i]);
  }

  /** A text whose first two fields read as `h` and `m` is `h*60 + m` minutes. */
  lemma ParseFields(t: string, hh: string, mm: string, h: nat, m: nat)
    requires t != "" && Split(t, ':') == [hh, mm]
    requires JsNumber(hh) == Finite(h) && JsNumber(mm) == Finite(m)
    ensures MinutesFromTimeStr(t) == At(h * 60 + m)
  {
  }

  lemma JsNumberOfPad2(n: nat)
    ensures JsNumber(Pad2(n)) == Finite(n)
  {
    Pad2Digits(n);
    JsNumberOfDigits(Pad2(n));
  }

  /** The printed time splits at its colon into the two padded fields. */
  lemma TimeStrFields(min: int)
    requires min >= 0
    ensures Split(TimeStrFromMinutes(min), ':') == [Pad2(min / 60), Pad2(min % 60)]
  {
    var hh, mm := Pad2(min / 60), Pad2(min % 60);
    assert TimeStrFromMinutes(min) == hh + [':'] + mm;
    Pad2Digits(min / 60);
    Pad2Digits(min % 60);
    NoColonInDigits(hh);
    NoColonInDigits(mm);
    SplitTwoFields(hh, ':', mm);
  }

  /** Printing then parsing gives the minutes back, for every time of day and beyond. */
  lemma TimeRoundTrip(min: int)
    requires min >= 0
    ensures MinutesFromTimeStr(TimeStrFromMinutes(min)) == At(min)
  {
    var h, m := min / 60, min % 60;
    assert h * 60 + m == min;
    TimeStrFields(min);
    JsNumberOfPad2(h);
    JsNumberOfPad2(m);
    ParseFields(TimeStrFromMinutes(min), Pad2(h), Pad2(m), h, m);
  }

  /** A well-formed "HH:MM" text: two digits, a colon, two digits, below 24 and 60. */
  predicate IsClockText(t: string) {
    && |t| == 5 && t[2] == ':' && AllDigits(t[..2]) && AllDigits(t[3..])
    && DigitsValue(t[..2]) < 24 && DigitsValue(t[3..]) < 60
  }

  /** The minutes an "HH:MM" text denotes. */
  function ClockMinutes(t: string): nat
    requires IsClockText(t)
  {
    DigitsValue(t[..2]) * 60 + DigitsValue(t[3..])
  }

  /** `minutesFromTimeStr` reads an "HH:MM" text as the minutes it denotes. */
  lemma ClockTextMinutes(t: string)
    requires IsClockText(t)
    ensures MinutesFromTimeStr(t) == At(ClockMinutes(t))
  {
    assert t == t[..2] + [':'] + t[3..];
    ParseDigitFields(t, t[..2], t[3..], DigitsValue(t[..2]), DigitsValue(t[3..]));
  }

  lemma ParseDigitFields(t: string, hh: string, mm: string, h: nat, m: nat)
    requires hh != [] && mm != [] && AllDigits(hh) && AllDigits(mm)
    requires t == hh + [':'] + mm && h == DigitsValue(hh) && m == DigitsValue(mm)
    ensures MinutesFromTimeStr(t) == At(h * 60 + m)
  {
    NoColonInDigits(hh);
    NoColonInDigits(mm);
    SplitTwoFields(hh, ':', mm);
    JsNumberOfDigits(hh);
    JsNumberOfDigits(mm);
    ParseFields(t, hh, mm, h, m);
  }

  /** Every time of day prints as a well-formed "HH:MM" text denoting it. */
  lemma TimeStrIsClockText(min: int)
    requires 0 <= min < MinutesPerDay
    ensures IsClockText(TimeStrFromMinutes(min))
    ensures ClockMinutes(TimeStrFromMinutes(min)) == min
  {
    var s := TimeStrFromMinutes(min);
    assert s[..2] == Pad2(min / 60);
    assert s[3..] == Pad2(min % 60);
  }

  /** An "HH:MM" text is what `timeStrFromMinutes` prints for the minutes it denotes. */
  lemma TimeTextRoundTrip(t: string)
    requires IsClockText(t)
    ensures TimeStrFromMinutes(ClockMinutes(t)) == t
  {
    assert t == t[..2] + ":" + t[3..];
    PrintClockFields(t, t[..2], t[3..], DigitsValue(t[..2]), DigitsValue(t[3..]));
  }

  lemma PrintClockFields(t: string, hh: string, mm: string, h: nat, m: nat)
    requires |hh| == 2 && |mm| == 2 && AllDigits(hh) && AllDigits(mm)
    requires t == hh + ":" + mm && h == DigitsValue(hh) && m == DigitsValue(mm) < 60
    ensures TimeStrFromMinutes(h * 60 + m) == t
  {
    TimeStrOfFields(h, m);
    Pad2OfTwoDigits(hh);
    Pad2OfTwoDigits(mm);
  }

  lemma TimeStrOfFields(h: nat, m: nat)
    requires m < 60
    ensures TimeStrFromMinutes(h * 60 + m) == Pad2(h) + ":" + Pad2(m)
  {
    var min := h * 60 + m;
    assert min / 60 == h && min % 60 == m;
  }

  /** `dateForEventTime(dayIndex, minutes)`: the event's date with the hours
      set to `floor(minutes/60)` and the minutes to `minutes % 60`. A `null`
      time counts as 0; NaN gives an Invalid Date (`None`). */
  function DateForEventTime(now: int, dayIndex: int, minutes: TimeValue): (r: Option<int>)
    ensures r.None? <==> minutes == NaNTime
    ensures minutes == NoTime ==> r == Some(DayDateOfWeek(now, dayIndex) * MsPerDay)
  {
    var midnight := DayDateOfWeek(now, dayIndex) * MsPerDay;
    match minutes
    case NaNTime => None
    case NoTime => Some(midnight)
    case At(m) => Some(midnight + FloorDiv60(m) * MsPerHour + JsRem60(m) * MsPerMinute)
  }

  /** For a non-negative time the trigger instant is that many minutes after
      the day's midnight, at hour `min / 60` and minute `min % 60`. */
  lemma EventInstant(now: int, dayIndex: int, min: int)
    requires min >= 0
    ensures DateForEventTime(now, dayIndex, At(min))
      == Some(DayDateOfWeek(now, dayIndex) * MsPerDay + min * MsPerMinute)
    ensures DateForEventTime(now, dayIndex, At(min))
      == Some(DayDateOfWeek(now, dayIndex) * MsPerDay + (min / 60) * MsPerHour + (min % 60) * MsPerMinute)
  {
  }
}
