/** What a delivered notification says and looks like: the tag, the body
    text, the in-app notification with its optional chime, and the colour
    dot of an event (app.js lines 137-149, 190-201, 212-220 and 245-254). */
module Delivery {
  import opened Wrappers
  import opened Text
  import opened TimeModel
  import opened Events

  /** The two moments of an event a notification can be about. */
  datatype Kind = StartKind | EndKind

  function KindName(k: Kind): string {
    if k == StartKind then "start" else "end"
  }

  /** `${type}-${e.id}`: the notification tag, which is also the timer key. */
  function Tag(k: Kind, id: string): string {
    KindName(k) + "-" + id
  }

  /** Different (kind, id) pairs never share a tag. */
  lemma TagInjective(k1: Kind, id1: string, k2: Kind, id2: string)
    requires Tag(k1, id1) == Tag(k2, id2)
    ensures k1 == k2 && id1 == id2
  {
    var t := Tag(k1, id1);
    assert t[0] == KindName(k1)[0] && t[0] == KindName(k2)[0];
    assert t == KindName(k2) + "-" + id2;
    assert |id1| == |id2|;
    assert id1 == t[|t| - |id1|..];
  }

  const AppTitle := "R\U{2011}kalender"

  const Separator := " \U{2022} "

  const DayNames: seq<string> :=
    ["Esmaspäev", "Teisipäev", "Kolmapäev", "Neljapäev", "Reede", "Laupäev", "Pühapäev"]

  /** `DAYS_ET[i]`, which is `undefined` outside the week. */
  function DayName(i: int): string {
    if 0 <= i < 7 then DayNames[i] else "undefined"
  }

  /** A proleptic Gregorian date: year, month 1-12, day of month. */
  datatype CivilDate = CivilDate(year: int, month: int, day: int)

  /** The calendar date of a day number (`getFullYear`, `getMonth()+1`,
      `getDate()`), by the usual era-of-400-years reckoning from 1 March. */
  function CivilFromDays(days: int): CivilDate {
    var z := days + 719468;
    var era := z / 146097;
    var doe := z - era * 146097;
    var yoe := (doe - doe / 1460 + doe / 36524 - doe / 146096) / 365;
    var doy := doe - (365 * yoe + yoe / 4 - yoe / 100);
    var mp := (5 * doy + 2) / 153;
    var d := doy - (153 * mp + 2) / 5 + 1;
    var m := if mp < 10 then mp + 3 else mp - 9;
    var y := yoe + era * 400;
    CivilDate(if m <= 2 then y + 1 else y, m, d)
  }

  /** `${DAYS_ET[dayIndex]} ${d.getDate()}.${d.getMonth()+1}` for the event's date this week. */
  function DayLabel(now: int, dayIndex: int): string {
    var date := CivilFromDays(DayDateOfWeek(now, dayIndex));
    DayName(dayIndex) + " " + IntToString(date.day) + "." + IntToString(date.month)
  }

  /** `buildBody(e, prefix)`: prefix, title, the notes when there are any,
      and the day label, joined by " • ". The week emoji is not an input. */
  function BuildBody(e: Event, prefix: string, now: int): (r: string)
    ensures e.notes != "" ==>
      r == prefix + Separator + e.title + Separator + e.notes + Separator + DayLabel(now, e.dayIndex)
    ensures e.notes == "" ==>
      r == prefix + Separator + e.title + Separator + DayLabel(now, e.dayIndex)
  {
    var parts := [prefix, e.title] + (if e.notes != "" then [e.notes] else []) + [DayLabel(now, e.dayIndex)];
    JoinParts(parts, Separator);
    Join(parts, Separator)
  }

  lemma JoinParts(parts: seq<string>, sep: string)
    requires |parts| == 3 || |parts| == 4
    ensures |parts| == 3 ==> Join(parts, sep) == parts[0] + sep + parts[1] + sep + parts[2]
    ensures |parts| == 4 ==> Join(parts, sep) == parts[0] + sep + parts[1] + sep + parts[2] + sep + parts[3]
  {
    var p1, p2, p3 := parts[..1], parts[..2], parts[..3];
    assert Join(p1, sep) == parts[0];
    assert p2[..1] == p1;
    assert Join(p2, sep) == parts[0] + sep + parts[1];
    assert p3[..2] == p2;
    assert Join(p3, sep) == parts[0] + sep + parts[1] + sep + parts[2];
    if |parts| == 3 {
      assert parts == p3;
    } else {
      assert parts[..3] == p3;
    }
  }

  /** `timeStrFromMinutes` of a stored time: `null` prints as "00:00", NaN as "NaN:NaN". */
  function TimeLabel(v: TimeValue): string {
    match v
    case At(m) => TimeStrFromMinutes(m)
    case NoTime => TimeStrFromMinutes(0)
    case NaNTime => "NaN:NaN"
  }

  /** The lead phrase: "Algus: HH:MM" for the start, "Lõpp: HH:MM" for the end. */
  function Lead(e: Event, k: Kind): string {
    if k == StartKind then "Algus: " + TimeLabel(e.startMin) else "Lõpp: " + TimeLabel(e.endMin)
  }

  /** The body of the notification about moment `k` of `e`. */
  function NoticeBody(e: Event, k: Kind, now: int): string {
    BuildBody(e, Lead(e, k), now)
  }

  /** `Notification.permission`, or `Unsupported` when the API is missing. */
  datatype Permission = Unsupported | Granted | Denied | Undetermined

  /** A notification shown in the page, and whether the chime plays with it. */
  datatype Shown = Shown(title: string, body: string, tag: string, chime: bool)

  /** `showNow(e, type)`: nothing unless permission is granted; otherwise the
      notification tagged `<type>-<id>`, with the chime when sound is on. */
  function ShowNow(e: Event, k: Kind, permission: Permission, settings: Settings, now: int): (r: Option<Shown>)
    ensures r.Some? <==> permission == Granted
    ensures r.Some? ==> r.value.title == AppTitle && r.value.tag == Tag(k, e.id)
    ensures r.Some? ==> r.value.chime == settings.soundOn
    ensures r.Some? ==> r.value.body == NoticeBody(e, k, now)
  {
    if permission != Granted then None
    else Some(Shown(AppTitle, NoticeBody(e, k, now), Tag(k, e.id), settings.soundOn))
  }

  /** The week emoji never reaches a notification: changing it changes nothing shown. */
  lemma ShowNowIgnoresEmoji(e: Event, k: Kind, permission: Permission, settings: Settings, emoji: string, now: int)
    ensures ShowNow(e, k, permission, settings.(weekEmoji := emoji), now) == ShowNow(e, k, permission, settings, now)
  {
  }

  /** The closed colour table with its slate fallback. */
  function ColorToHex(c: string): (r: string)
    ensures |r| == 7 && r[0] == '#'
    ensures r == "#64748b" <==> c !in NamedColors
  {
    if c == "red" then "#ef4444"
    else if c == "yellow" then "#f59e0b"
    else if c == "blue" then "#3b82f6"
    else if c == "green" then "#10b981"
    else if c == "purple" then "#a855f7"
    else if c == "brown" then "#8b5e3c"
    else if c == "pink" then "#ec4899"
    else if c == "orange" then "#f97316"
    else "#64748b"
  }

  const NamedColors: set<string> := {"red", "yellow", "blue", "green", "purple", "brown", "pink", "orange"}

  /** Named colours get distinct dots. */
  lemma ColorToHexInjective(c1: string, c2: string)
    requires c1 in NamedColors && c2 in NamedColors && c1 != c2
    ensures ColorToHex(c1) != ColorToHex(c2)
  {
  }
}
