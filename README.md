# R-kalender core in Dafny

R-kalender is a one-page weekly calendar. Events belong to the week they were created in and are keyed by the Monday of that week. The page shows this week's events sorted by day and start time, and it reminds the user at an event's start and end. Where the platform can deliver timestamp-triggered notifications ("Deferred Mode"), it registers them with the platform. Otherwise it arms `setTimeout` timers while the page is open ("Timer Mode"). This project models the page script `app.js` in Dafny and proves properties of that model:

- `wrappers.dfy`: `Option` and `Result`.
- `text.dfy` (module `Text`): the JavaScript primitives the script relies on. These are `trim`, `String(n)`, `padStart(2, '0')` (`pad2`), `split(':')`, `join` and `Number(text)` for the texts a form can hold.
- `time_model.dfy` (module `TimeModel`): the week and time-of-day arithmetic.
  - Instants are local wall-clock milliseconds.
  - A date is a day number counted from 1 January 1970, a Thursday.
  - A week key is the day number of its Monday.
  - `minutesFromTimeStr` returns `NoTime` (`null`), `At(minutes)` or `NaNTime`, so that the script's comparisons with `null` and NaN can be modelled.
- `events.dfy` (module `Events`):
  - the event record and the event form;
  - validation for adding an event, and the unvalidated edit;
  - find, delete and edit by id;
  - the week filter and the stable sort of the current-week view;
  - the week-note cap at 120 UTF-16 code units.
- `delivery.dfy` (module `Delivery`): notification tags, the notification body (`buildBody`), `showNow`, and `colorToHex`.
- `scheduling.dfy` (module `Scheduling`): the scheduler.
  - Pure step functions over a `TimerState` hold the `state.timers` registry (key to handle), the host's pending timeouts by handle, and logs of the callbacks that ran at once and of the Deferred-Mode registrations.
  - The class `Scheduler` performs `setLocalTimer`, `clearAllTimers`, `scheduleForEvent` and `scheduleAll` in place, and is proved to match the step functions.
- `calendar.dfy` (module `App`): the page state as the class `Calendar`.
  - It holds the event list and settings, the week-keyed store, and the `rk_last_ws` marker.
  - Its handlers are load, save, start-up, add, edit-submit, delete, the three settings inputs and the once-a-minute rollover poll.
  - Lemmas tie these handlers to the scheduler.

Three behaviours of the code as written are stated as lemmas:

- In Timer Mode, `scheduleAll` fires again, at once, every notification of the week whose instant has passed. This happens on start-up, on every edit, on every delete and on every week-rollover reload, even for instants days in the past. In Deferred Mode the same passes register those notifications with the platform again instead.
- `setLocalTimer` on a key that is already registered overwrites the handle without cancelling the old timeout. That timeout then escapes every later `clearAllTimers`.
- The edit form stores what the add form refuses.

## Model

| member | source | states |
|---|---|---|
| Text.Trim | app.js:294 | the result is the input with only white space cut off at either end, and has no white space left at either end |
| Text.TrimEmptyIff | app.js:294-295 | a title trims to empty exactly when it is all white space |
| Text.TrimIdempotent | app.js:294 | trimming twice is trimming once |
| Text.TrimPadded | app.js:294 | white space added at either end of a text that has none there is exactly what trimming removes |
| Text.Pad2 | app.js:21 | the padded text is at least two characters; for 0..99 it is exactly two digits denoting the number |
| Text.Pad2OfTwoDigits | app.js:21 | two digits print back as themselves |
| Text.DecimalRoundTrip | app.js:21 | `String(n)` of a natural number reads back as n |
| Text.JsNumber | app.js:58 | `Number` of a blank text is 0; the result is NaN exactly when the trimmed text is neither blank nor a run of digits; a finite result is never negative |
| Text.JsNumberOfDigits | app.js:58 | `Number` of a run of digits is its decimal value |
| Text.JsNumberOfPaddedDigits | app.js:58 | `Number` of a run of digits with white space around it, as in " 12 ", is the value of the digits |
| Text.SplitTwoFields | app.js:58 | two colon-free fields joined by a colon split back into exactly those fields |
| Text.Split | app.js:58 | `split` at a one-character separator: at least one field, none holding the separator; `SplitNoSeparator` and `SplitAtFirst` give its fields |
| Text.SplitNoSeparator | app.js:58 | a text without the separator splits into itself alone |
| Text.SplitAtFirst | app.js:58 | splitting at the first separator gives the text before it, then the fields of the rest |
| Text.Join | app.js:219 | the fields with the separator between each two |
| TimeModel.LocalDay | app.js:27 | the day number's midnight is at or before the instant, and the next midnight after it |
| TimeModel.MondayOffset | app.js:28 | `(getDay()+6)%7` lies in 0..6 |
| TimeModel.WeekStart | app.js:26-32 | the week start is a Monday on or at most six days before the date |
| TimeModel.SameWeek | app.js:26-32 | every date of the week that begins on a Monday has that Monday as its week start |
| TimeModel.WeekStartIdempotent | app.js:26-32 | the week start of a week start is itself |
| TimeModel.CurrentWeekStart | app.js:26-32 | the current week key is a Monday, and now lies within the seven days it begins |
| TimeModel.DayDateOfWeek | app.js:67-72 | for a day index 0..6 the date lies in the current week, that many days after its Monday |
| TimeModel.JsRem60 | app.js:63 | the remainder lies strictly between -60 and 60, agrees with the mathematical one for non-negative input, and for negative input is minus the remainder of the magnitude, so it follows the sign of the dividend |
| TimeModel.MinutesFromTimeStr | app.js:56-60 | an empty text, and only that, gives `null`; a non-empty text without a colon gives NaN; a numeric result is never negative |
| TimeModel.FieldsNaN | app.js:58-59 | two colon-free fields around a colon give NaN exactly when either field is not a number, and `h*60 + m` otherwise |
| TimeModel.TimeStrFromMinutes | app.js:62-65 | a time of day prints as two digits for the hours, a colon and two digits for the minutes |
| TimeModel.TimeRoundTrip | app.js:56-65 | parsing a printed time gives back the minutes, for every non-negative minute count |
| TimeModel.TimeStrIsClockText | app.js:62-65 | every time of day prints as a two-digit "HH:MM" text that denotes it |
| TimeModel.ClockTextMinutes | app.js:56-60 | an "HH:MM" text parses to the minutes it denotes |
| TimeModel.TimeTextRoundTrip | app.js:56-65 | an "HH:MM" text is what printing its minutes gives |
| TimeModel.DateForEventTime | app.js:222-227 | a NaN time, and only that, gives an Invalid Date; a `null` time gives the day's midnight |
| TimeModel.EventInstant | app.js:222-227 | a non-negative time gives the day's midnight plus `floor(min/60)` hours and `min%60` minutes |
| Events.CapWeekNote | app.js:380 | the stored note is the longest prefix of the input within 120 UTF-16 code units: it is the input when that fits, and otherwise one more character would not fit |
| Events.CapWeekNoteIdempotent | app.js:380 | capping twice is capping once |
| Events.CapBmp | app.js:380 | a note of Basic Multilingual Plane characters keeps exactly its first 120 |
| Events.CapAstral | app.js:380 | a note of emoji keeps exactly its first 60, each taking two code units |
| Events.FormColor | app.js:303 | the checked colour when there is one, blue otherwise |
| Events.NewEvent | app.js:292-309 | refused exactly when the trimmed title is empty or the end is present and before the start, the title check first; an accepted event has the given id, the current week key and every form field |
| Events.ApplyEdit | app.js:333-342 | the edit keeps the id and the week key and overwrites every other field from the form |
| Events.EditSkipsValidation | app.js:333-342 | for a blank title, or an "HH:MM" end earlier than the "HH:MM" start, the add form refuses while an edit stores the blank title, or both times as minutes with the end before the start |
| Events.FindIndex | app.js:357 | the index of the first event with the id, or none exactly when no event has it |
| Events.RemoveFirst | app.js:356-359 | an unknown id leaves the list as it was; otherwise one event is removed, the first with the id, and the others keep their order |
| Events.RemoveFirstDistinct | app.js:356-359 | with distinct ids, after the delete the id is gone and the ids stay distinct |
| Events.EditFirst | app.js:317-342 | an unknown id leaves the list as it was; otherwise only the first event with the id changes, to its edited form |
| Events.EditKeepsIds | app.js:333-342 | the edit changes no id and no week key anywhere in the list |
| Events.InWeek | app.js:100-101 | the filtered list holds exactly the events with the week key, none more often than in the list |
| Events.InWeekAppend | app.js:100-101 | filtering after a push adds the pushed event exactly when it has the week key |
| Events.InWeekDistinct | app.js:100-101 | filtering keeps ids distinct |
| Events.SortPermutes | app.js:102-103 | the sort is a permutation |
| Events.SortSorted | app.js:103 | the sorted list is ordered by day index, then start |
| Events.SortStable | app.js:103 | events in the same (day, start) slot keep their list order |
| Events.SortBySlot | app.js:103 | the stable insertion sort by (day index, start) that the three lemmas above are about |
| Events.WeekView | app.js:99-103 | the week filter followed by the sort |
| Events.WeekViewSpec | app.js:99-103 | the view holds exactly this week's events, as often as listed, sorted by day then start, ties in list order |
| Delivery.TagInjective | app.js:207-208 | `<kind>-<id>` tags of different (kind, id) pairs are different |
| Delivery.BuildBody | app.js:212-220 | the body is the prefix, the title, the notes if not empty and the day label, joined by " • " |
| Delivery.DayLabel | app.js:217-218 | the Estonian day name, then the day of the month and the month of that date |
| Delivery.CivilFromDays | app.js:218 | the calendar date of a day number |
| Delivery.TimeLabel | app.js:248 | `timeStrFromMinutes` of a start or end time: `null` prints as "00:00" and NaN as "NaN:NaN" |
| Delivery.Lead | app.js:248 | "Algus: " with the start time, or "Lõpp: " with the end time |
| Delivery.NoticeBody | app.js:248 | `buildBody` of the event with the lead of the kind |
| Delivery.ShowNow | app.js:245-254 | a notification exactly when permission is granted; titled R‑kalender, tagged `<kind>-<id>`, with the body of that kind and the chime when sound is on |
| Delivery.ShowNowIgnoresEmoji | app.js:212-254 | the week emoji never changes what is shown |
| Delivery.ColorToHex | app.js:137-149 | a seven-character "#" colour, the slate fallback exactly for names outside the table |
| Delivery.ColorToHexInjective | app.js:137-149 | the named colours have distinct hex values |
| Scheduling.TimerDelay | app.js:236 | `Math.min(delta, 0x7fffffff)`: the full delta when that fits, the cap when it does not, and 0 for an Invalid Date |
| Scheduling.ArmTimer | app.js:229-238 | a due instant only runs the callback; otherwise the key, and only it, gets a fresh handle whose timeout waits the capped delay |
| Scheduling.ArmTimerWellFormed | app.js:229-238 | arming keeps every registered handle pending, fresh and unshared |
| Scheduling.OverwriteLeaksTimeout | app.js:236-237 | re-arming a registered key leaves its old timeout pending with no key reaching it |
| Scheduling.ClearAll | app.js:240-243 | the registry is emptied and exactly the registered timeouts are cancelled |
| Scheduling.ClearAllWellFormed | app.js:240-243 | clearing keeps the registry well formed |
| Scheduling.ScheduleEvent | app.js:182-209 | the start notification when `notifyStart`, then the end notification when `notifyEnd` and an end time, each in the chosen mode |
| Scheduling.ScheduleEvents | app.js:176-178 | `scheduleForEvent` for each event in list order |
| Scheduling.Reschedule | app.js:174-180 | clear every timer, then schedule each event with the current week key |
| Scheduling.StepTimer | app.js:207-208 | in Timer Mode one wanted notification either adds its key with a fresh handle or runs its callback at once; other keys and pending timeouts stay |
| Scheduling.ScheduleEventTimer | app.js:182-209 | in Timer Mode an event adds exactly its armed keys with fresh handles, runs its due callbacks, and leaves other timeouts alone |
| Scheduling.ScheduleEventsTimer | app.js:174-209 | the same for a sequence of events |
| Scheduling.ScheduleEventArms | app.js:182-238 | each wanted notification that is not yet due is armed with the event's own timeout and delay |
| Scheduling.StepDeferred | app.js:188-202 | in Deferred Mode one wanted notification only appends its platform registration |
| Scheduling.ScheduleEventDeferred | app.js:186-204 | in Deferred Mode one event appends its start and end registrations and touches nothing else |
| Scheduling.ScheduleEventsDeferred | app.js:186-204 | in Deferred Mode scheduling only appends platform registrations; timers and firings are untouched |
| Scheduling.RescheduleTimer | app.js:174-243 | after `scheduleAll` the registry holds exactly the keys armed in this pass, every earlier registered timeout is cancelled, and this pass's due callbacks ran in order |
| Scheduling.RescheduleOnlyCurrentWeek | app.js:176-178 | every armed key belongs to an event stamped with the current week |
| Scheduling.RescheduleEmpty | app.js:174-180 | with no events, no timer remains armed |
| Scheduling.RescheduleDeferred | app.js:174-204 | in Deferred Mode `scheduleAll` empties the registry and registers the week's notifications |
| Scheduling.ArmedPlusFired | app.js:188-237 | every wanted notification is either armed or fired at once |
| Scheduling.ArmedTagsAvoid | app.js:207-208 | events whose ids all differ from an id arm neither key of that id |
| Scheduling.ArmedTagsDistinct | app.js:207-208 | events with distinct ids arm distinct keys |
| Scheduling.RescheduleCount | app.js:174-238 | with distinct ids the registry size is the number of wanted notifications of the week minus those fired at once |
| Scheduling.ArmedTimeout | app.js:174-208 | after a pass every armed key leads to the pending timeout of its own event and kind |
| Scheduling.RescheduleArms | app.js:174-243 | after `scheduleAll` each wanted, not yet due notification of the week is armed with its event's timeout, and no timeout registered before the pass is still pending |
| Scheduling.CapNeverBinds | app.js:236 | for this week's events with a time within the day, the 24.8-day cap never shortens a delay |
| Scheduling.MondayMorning | app.js:174-238 | a Monday 09:00-10:00 event with both reminders, scheduled at 08:00 that Monday from an empty state, registers exactly its two keys under handles 0 and 1, whose timeouts are of one and two hours, and fires nothing |
| Scheduling.RescheduleRefires | app.js:174-234 | two `scheduleAll` passes at the same moment run each past notification of the week twice |
| Scheduling.PastDayFires | app.js:231-234 | Example: an event at Monday 09:00, scheduled on Wednesday at noon, fires at once |
| Scheduling.Scheduler.constructor | app.js:17 | an empty registry with nothing pending |
| Scheduling.Scheduler.SetLocalTimer | app.js:229-238 | performs `ArmTimer` in place and keeps the registry well formed |
| Scheduling.Scheduler.ClearAllTimers | app.js:240-243 | cancels each registered handle in a loop, then empties the registry: `ClearAll` in place |
| Scheduling.Scheduler.DeliverOne | app.js:188-208 | one notification as a platform registration or a local timer, as the mode says |
| Scheduling.Scheduler.ScheduleForEvent | app.js:182-210 | performs `ScheduleEvent` in place |
| Scheduling.Scheduler.ScheduleAll | app.js:174-180 | clears, then loops over the week's events: `Reschedule` in place |
| App.RolloverDetectsNewWeek | app.js:448-451 | a page showing the week of an earlier moment is not due then, and is due once the clock is in a later week |
| App.RolloverSettles | app.js:448-453 | after reloading a week whose stored events all carry its key, the next poll that week does nothing |
| App.LastWeek | app.js:450 | the week key of the first event, or the stored marker when the list is empty |
| App.RolloverDue | app.js:449-451 | a reload is due when that week is not the current one |
| App.LoadedEvents | app.js:43-45 | the list stored for the week, or an empty one |
| App.LoadedSettings | app.js:46-47 | the settings stored for the week when there are any, the current ones otherwise |
| App.AddedEventInView | app.js:99-310 | a created event has the current week key, is appended to the week's filtered list and appears in the view |
| App.EndBeforeStartRejected | app.js:297-302 | a titled form whose "HH:MM" end is earlier than its "HH:MM" start is refused with the end-before-start error |
| App.TenToFiveRejected | app.js:297-302 | start 10:00 with end 05:00, as the time inputs write them, is refused |
| App.EditRearms | app.js:333-345 | after an edit and its `scheduleAll` the event's key points to a timeout for its new fields, and no timeout registered before the pass is still pending |
| App.Calendar.constructor | app.js:9-18 | empty event list and default settings over the given store |
| App.Calendar.Load | app.js:42-48 | the week's stored list or an empty one; stored settings replace the current ones only when present |
| App.Calendar.Save | app.js:50-54 | list and settings are stored under the current week key |
| App.Calendar.Start | app.js:433-444 | the week's stored list and settings are loaded, then `scheduleAll` runs over them; store and marker are unchanged |
| App.Calendar.AddEventFromForm | app.js:292-313 | a refused form changes nothing; an accepted one appends one event, saves the list and the settings under the week key, and schedules only that event; settings and marker are unchanged |
| App.Calendar.SubmitEdit | app.js:317-345 | an unknown id changes nothing; otherwise the first event with the id takes the form's fields, list and settings are saved under the week key, and `scheduleAll` runs; settings and marker are unchanged |
| App.Calendar.DeleteEvent | app.js:356-363 | an unknown id changes nothing; otherwise the first event with the id is removed, list and settings are saved under the week key, and `scheduleAll` runs; settings and marker are unchanged |
| App.Calendar.SetWeekNote | app.js:379-382 | the note is capped at 120 code units and saved with the list; the marker is unchanged |
| App.Calendar.SetWeekEmoji | app.js:374-378 | the emoji is replaced and saved with the list; the marker is unchanged |
| App.Calendar.SetSoundOn | app.js:383-386 | the sound flag is replaced and saved with the list; the marker is unchanged |
| App.Calendar.PollWeek | app.js:448-460 | reloads and reschedules exactly when the first event's week key, or the stored marker when there are no events, is not the current week |

## Left out

- `sw.js` (cache lifecycle, fetch, notification click) is not part of this model.
- Not modelled: DOM rendering and form binding, the install prompt, the permission request, the notify button, `initDayDefaults` and `playBeep`. Form values arrive as parameters, and the chime is a flag on the shown notification.
- `localStorage` and JSON. The store holds parsed values. Malformed stored JSON, which makes `JSON.parse` throw, is not modelled. `JSON.stringify` writes a NaN start or end time as `null`, so after a reload the script holds `null` there; the model keeps `NaNTime`.
- App.Calendar.Load: `Object.assign` merges a partial stored settings object field by field. The model replaces the settings as a whole.
- Dates. `dateToISO`, time zones and daylight saving are not modelled, and local days are exactly 86 400 000 ms. The week key is the Monday's day number rather than its ISO text, a one-to-one renaming.
- Delivery.DayLabel: the calendar date of a day (`CivilFromDays`) is computed by the usual era reckoning. No property of it is proved.
- Text.JsNumber: handles a blank text, a run of decimal digits and everything else (NaN). Signs, decimals, exponents and hexadecimal forms of `Number` are not modelled, so such a text counts as NaN.
- Events.CapWeekNote: when the 120th code unit is the first half of a surrogate pair, `slice` keeps that lone half; a Dafny string cannot hold it, so the model drops the whole character and keeps 119 code units.
- Events.SlotOf: a NaN start counts as 0 in the sort key. The script's comparator then returns NaN, and the order the engine produces for that is not modelled.
- Real time. `Date.now()` and the poll interval are a `now` parameter, and the expiry of a timeout is not modelled. A `Timeout` records the delay and the `showNow` call it will make.
- Deferred Mode. The asynchronous `navigator.serviceWorker.ready` and `showNotification` calls are modelled as an immediate append to a log of registrations. Their failures are not modelled. A registration records the kind, the event, the trigger instant and the moment it was made; its tag and body are computed from these (`Registration.Tag`, `Registration.Body`).
- Scheduling.Scheduler.ScheduleForEvent: the timer callback holds the event object itself, so an edit made before the timeout expires changes what it will show. The model stores a copy of the event.
- App.Calendar.SubmitEdit: the handler edits the object found when the edit form opened. The model looks the id up again at submit. If that event was deleted in between, the script edits a detached object and still saves and reschedules, and the model does nothing.
- The 24.8-day cap is applied once and the timer is not re-armed when it expires. Scheduling.CapNeverBinds shows that this does not matter for this week's events.
- Validation on edit. The edit does not check the title or the end against the start. The model follows the code (Events.EditSkipsValidation).
