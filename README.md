# CalmHour focus scheduling, modelled in Dafny

CalmHour is a Next.js application. It books "focus time" blocks into a
user's Google Calendar and shows them with a small set of focus tools.
This project models the application's core logic and proves properties of
that model:

- **Slot search of the add route** (`app/api/calendar/add-focus-time/route.ts`).
  The search takes a free/busy answer and finds a working-hours slot of the
  requested length. The route also validates the request, picks the summary
  and colour, and maps errors to HTTP statuses.
- **Update route** (`app/api/calendar/update-focus-time/route.ts`). It
  refreshes the token when needed, validates the request, builds the patch
  payload and maps errors to statuses.
- **Calendar view** (`components/calendar-view.tsx`). Events are positioned
  in minutes, the week and month grids are built, and each day's events get
  greedy columns.
- **FullCalendar view** (`components/full-calendar-view.tsx`). API events
  are mapped and filtered, colour ids become style classes, and the header
  title is chosen.
- **Dashboard state machine** (`components/dashboard-layout.tsx`). It holds
  the selected event, the edit form, the refresh key and the in-flight flags.
- **Focus controls sidebar** (`components/focus-controls-sidebar.tsx`),
  **event details sidebar** (`components/focus-event-details-sidebar.tsx`),
  **focus timer** (`components/focus-timer.tsx`) and **lofi player**
  (`components/lofi-player.tsx`).
- **Music playlist route** (`app/api/music/playlist/route.ts`).

Modelling conventions:

- Times are whole minutes of local wall-clock time (module `Time`). Day 0
  is Thursday 1 January 1970, so the weekday of day `d` is `(d + 4) % 7`,
  with 0 meaning Sunday, as `getDay` numbers it.
- Calendar-view positions are in minutes. The component's rem values are
  these divided by ten.
- JavaScript's `%` keeps the dividend's sign (`JsMath.Rem`). `Math.round`
  rounds halves up (`JsMath.RoundDiv`). Falsy values are written out: the
  empty string, `0`, `undefined` and `null`.
- Supabase, Google Calendar, the file system, `confirm`, `fetch` and the
  session check are not called. Each of their outcomes is a parameter of
  the handler that would make the call: `TokenLookup`, `FreeBusy`,
  `InsertOutcome`, `RefreshOutcome`, `PatchOutcome`, `Listing`, a `bool`
  or an `Option`.
- Components with `useState` become classes: `Dashboard.DashboardState`,
  `FocusControls.FocusControlsState`, `FocusTimer.Timer` and
  `LofiPlayer.Player`. Each handler is a method with a `modifies` clause. A
  handler that awaits a request is split into a `Begin…` method, which runs
  up to the request, and a `Finish…` method, which takes the response.
- The in-place sorts (the busy list and a day's events) are one insertion
  sort, `Sorting.SortInPlace`, over an `array`. It is proved to produce
  sorted output that is a permutation of the input.
- The slot search has a reference definition, `AddFocusTime.SlotSearchResult`.
  It scans the busy list in the order JavaScript's stable sort by start
  leaves it (`AddFocusTime.SortByStart`). The route's loop is proved equal
  to the reference scan of whatever order the in-place sort produced.
  `AddFocusTime.ScanIgnoresTieOrder` proves that the order of equal starts
  cannot change the result when every busy interval ends no earlier than it
  starts and the duration is not negative.

Behaviour kept as the code has it:

- **The explicit `startTime` path of the add route skips the checks.** It
  does not check working hours or busy times (lines 353-368).
- **A weekday cursor at or after 17:00 is never advanced.** The day-advance
  loop leaves it where it is, and the 17:00 check then rejects it.
  `AddFocusTime.FinalResultAfterHours` proves that the final candidate is
  then "not found".
- **A Friday-evening initial cursor lands on Saturday 09:00.** The initial
  cursor adds one day on a Friday evening instead of moving to the next
  weekday.
- **An error's whole message decides its status.** The error mapping tests
  phrases on the whole message, so Google's detail can change the status.
  `AddFocusTime.QueryFailureDetailCanOverrideStatus` gives a free/busy
  failure that is answered with 400.
- **The update route's colour table has a `'default'` key.** So the
  priority `"default"` gives colour `'8'`. Any other unknown priority gives
  no colour.
- **The update route's refresh-failure message is quoted as written.**
  `UpdateFocusTime.RefreshFailureMessage` gives it verbatim.
- **No rendered event counts as a focus block.** The dashboard reads
  `extendedProps.isFocusBlock`, but the calendar view only sets
  `isFocusTime` and `colorId`. `Dashboard.MappedEventsAreNeverFocusBlocks`
  proves that the edit button's guard therefore never holds for such an
  event.
- **A slot found before a busy interval is not checked against the
  horizon.** Only the final candidate after the last busy interval must
  start within seven days of the initial cursor (line 147).
- **Track titles can start with spaces.** The track-number pattern
  `^\d+\s*` runs before separators become spaces, so "01 - Song.mp3" gets
  the title "  Song".

## Model

| member | source | states |
|---|---|---|
| AddFocusTime.FirstWeekdayFrom | app/api/calendar/add-focus-time/route.ts:93-97 | the first non-weekend day on or after `d`, at most two days on, with only weekend days before it |
| AddFocusTime.NextWorkingTimeFacts | app/api/calendar/add-focus-time/route.ts:128-131 | where the day-advance loop stops is on a weekday at or after 09:00, never before the cursor, and on a later day when the cursor was not already in a working day |
| AddFocusTime.AdvanceToWorkingTime | app/api/calendar/add-focus-time/route.ts:128-131 | the loop terminates with the cursor on Monday to Friday at or after 09:00, not earlier than where it started, exactly at the specified stopping point |
| AddFocusTime.InitialCursor | app/api/calendar/add-focus-time/route.ts:51-62 | the first cursor is not before now and lies within 09:00-17:00 of its day; when now is a weekday up to 17:00 it is the later of now and 09:00 that day; otherwise it is 09:00 two days on from a Saturday and one day on from any other day; a weekend only from a Friday evening |
| AddFocusTime.FinalCandidate | app/api/calendar/add-focus-time/route.ts:140-150 | a final candidate is a working slot of the requested length, after the last busy end and starting before the 7-day limit |
| AddFocusTime.FinalResultAfterHours | app/api/calendar/add-focus-time/route.ts:141-147 | a weekday cursor at or past 17:00 gives "not found" |
| AddFocusTime.FirstSlotWithoutBusyData | app/api/calendar/add-focus-time/route.ts:88-118 | without busy data only the first weekday cursor and 09:00 of the next weekday are tried; any slot returned is a working slot at or after the start |
| AddFocusTime.NoBusyDataFacts | app/api/calendar/add-focus-time/route.ts:88-118 | either slot tried without busy data is a working slot of the requested length at or after the start |
| AddFocusTime.ScanResult | app/api/calendar/add-focus-time/route.ts:123-152 | the reference scan: each busy interval in turn is tried with the cursor at the running maximum of busy ends, advanced into working time, and a slot ending strictly before that interval and before 17:00 is accepted; after the last interval the final candidate decides; the answer is found or not found |
| AddFocusTime.ScanResultWorking | app/api/calendar/add-focus-time/route.ts:127-136 | a slot the scan accepts has the requested length, lies in working hours on a weekday and starts at or after the cursor |
| AddFocusTime.ScanResultClear | app/api/calendar/add-focus-time/route.ts:122-137 | over a list sorted by start, a slot the scan accepts overlaps no busy interval |
| AddFocusTime.SortByStart | app/api/calendar/add-focus-time/route.ts:122 | the busy list in stable order of start, a permutation of it |
| AddFocusTime.SortByStartSorted | app/api/calendar/add-focus-time/route.ts:122 | the stable order is sorted by start |
| AddFocusTime.ScanIgnoresTieOrder | app/api/calendar/add-focus-time/route.ts:122-138 | any two start-sorted orders of the same well-formed busy list give the same scan result for a non-negative duration |
| AddFocusTime.SlotSearchResultSafe | app/api/calendar/add-focus-time/route.ts:44-166 | a slot the reference search finds is a working slot at or after the initial cursor, clear of every busy interval |
| AddFocusTime.SortAndScan | app/api/calendar/add-focus-time/route.ts:122-152 | the sorted scan answers the reference scan of some start-sorted order of the busy list, and of the stable order when the intervals are well formed and the duration not negative; a found slot is a clear working slot |
| AddFocusTime.FreeBusyErrorMessage | app/api/calendar/add-focus-time/route.ts:158-166 | the failure sentence, followed by ' Google Error: ' and Google's message when there is one, else by ' Details: ' and the error's message when there is one, else nothing |
| AddFocusTime.ScanBusyTimes | app/api/calendar/add-focus-time/route.ts:123-152 | the loop over the sorted array answers exactly the reference scan of the array's order |
| AddFocusTime.FindNextAvailableSlot | app/api/calendar/add-focus-time/route.ts:44-166 | the reference search result whenever equal starts cannot matter; in every case the scan of some start-sorted order of the busy list; an upstream error with the failure message exactly when the query failed; a found slot is a working slot of the requested length, not before the initial cursor, and clear of every busy interval |
| AddFocusTime.ValidDuration | app/api/calendar/add-focus-time/route.ts:206-208 | a duration is accepted exactly when it is a number greater than zero |
| AddFocusTime.EffectivePriority | app/api/calendar/add-focus-time/route.ts:210-213 | a known priority is kept and anything else becomes 'default', which is always a key of the colour table |
| AddFocusTime.EventColorId | app/api/calendar/add-focus-time/route.ts:395 | the colour is '8' exactly when no known priority was given, and is always a colour of the table |
| AddFocusTime.EventSummary | app/api/calendar/add-focus-time/route.ts:394 | 'Focus Time' for an absent or blank name, otherwise the trimmed name |
| AddFocusTime.EventDescription | app/api/calendar/add-focus-time/route.ts:396 | the scheduling note, then the duration's decimal text, then ' minutes. Priority: ' with the effective priority and a full stop |
| AddFocusTime.DescriptionDurationReadsBack | app/api/calendar/add-focus-time/route.ts:396 | the digits in the description read back as the duration |
| AddFocusTime.ErrorFor | app/api/calendar/add-focus-time/route.ts:450-472 | phrase tests in order give 400, 409 and 502 with the message; with no phrase, Google's message gives 'Google API Error: ' and that message with Google's status (500 when it is absent or zero); otherwise 500 with the error's message, or the generic message when that is empty; 409 and 502 arise only from their phrase or Google's status |
| AddFocusTime.NoSlotIsConflict | app/api/calendar/add-focus-time/route.ts:458-460 | the no-slot error is answered 409 with its own message |
| AddFocusTime.FreeBusyErrorBaseNotDisconnected | app/api/calendar/add-focus-time/route.ts:455-457 | the free/busy failure text does not mention a missing connection |
| AddFocusTime.FreeBusyErrorBaseNotNoSlot | app/api/calendar/add-focus-time/route.ts:458-460 | the free/busy failure text does not mention a missing slot |
| AddFocusTime.FreeBusyErrorBaseIsQueryFailure | app/api/calendar/add-focus-time/route.ts:461-463 | the free/busy failure text carries the query-failure phrase |
| AddFocusTime.QueryFailureIsBadGateway | app/api/calendar/add-focus-time/route.ts:461-463 | a free/busy failure without detail is answered 502 |
| AddFocusTime.QueryFailureDetailCanOverrideStatus | app/api/calendar/add-focus-time/route.ts:455-463 | a free/busy failure whose detail mentions a missing connection is answered 400 |
| AddFocusTime.HandlePost | app/api/calendar/add-focus-time/route.ts:194-473 | 400 for a bad body or no connection, 500 on a token database error; an explicit start is inserted as given; otherwise a failed query is mapped through the error mapping, no slot gives 409, and a found slot is inserted at its start; a failed insert is mapped like any other error; a scheduled event lasts exactly the duration with the summary and colour rules, and when auto-scheduled is a clear working slot after the initial cursor |
| CalendarView.TimeOf | components/calendar-view.tsx:46-47 | `dateTime`, else `date`, present exactly when one of them is |
| CalendarView.CalculateEventPosition | components/calendar-view.tsx:45-85 | a position exactly when both ends exist, the start has a time and the length is positive; top is the start's minute of the day, height the length with a floor of 5 minutes |
| CalendarView.StartOffsetNeverNegative | components/calendar-view.tsx:59-68 | an event never starts before its own day's view, so that guard never fires |
| CalendarView.DaysBetween | components/calendar-view.tsx:149 | consecutive days from first to last inclusive |
| CalendarView.WeekDates | components/calendar-view.tsx:139-142 | seven consecutive days from Sunday to Saturday, holding the given day |
| CalendarView.MonthDates | components/calendar-view.tsx:143-149 | whole Sunday-to-Saturday weeks, 4 to 6 of them, covering the month's first and last day |
| CalendarView.DisplayDates | components/calendar-view.tsx:136-152 | one date in day view, the week in week view, the month grid in month view |
| CalendarView.WeekBoundsSpan | components/calendar-view.tsx:147-149 | the span between week bounds is a multiple of seven days |
| CalendarView.PlacedOnDay | components/calendar-view.tsx:274-288 | exactly the events starting on the day that have a position, each with its position |
| CalendarView.StillActive | components/calendar-view.tsx:301 | keeps exactly the active entries that end after the new top |
| CalendarView.FirstFreeColumn | components/calendar-view.tsx:300-304 | the column chosen is held by no active entry and every smaller non-negative column is held |
| CalendarView.ColumnStep | components/calendar-view.tsx:299-307 | one pass of the column loop extends the greedy assignment by one event and keeps the active list exact |
| CalendarView.AssignColumns | components/calendar-view.tsx:297-308 | each event gets the smallest column not held by an earlier event still running at its top, and a column no greater than its index |
| CalendarView.OverlappingLayoutsDiffer | components/calendar-view.tsx:300-307 | an earlier event still running when a later one starts has a different zIndex, and its top is not later |
| CalendarView.SortedTopsAscending | components/calendar-view.tsx:289 | events sorted by the comparator have ascending tops |
| CalendarView.LayoutDay | components/calendar-view.tsx:272-362 | a day's layouts are its placed events, sorted and greedily coloured, with zIndex = column + 1 and at most its position in the order |
| CalendarView.ProcessedEventsByDayIndex | components/calendar-view.tsx:263-364 | nothing for month view or no dates; otherwise exactly one day layout per displayed date index |
| UpdateFocusTime.RefreshFailureMessage | app/api/calendar/update-focus-time/route.ts:143 | the failed-refresh text, the refresh error's message, then the advice to reconnect; the error's message reads back from between them |
| UpdateFocusTime.RefreshFailureMessageInjective | app/api/calendar/update-focus-time/route.ts:143 | different refresh errors give different messages |
| UpdateFocusTime.RefreshIfNeeded | app/api/calendar/update-focus-time/route.ts:91-151 | a refresh only when the expiry is under five minutes away; a missing or empty refresh token, a failed refresh or one without a non-empty access token answer 401 and delete the connection; otherwise the new credentials, keeping the old refresh token when none or an empty one comes back, and never storing an empty token |
| UpdateFocusTime.ExpiryFromMilliseconds | app/api/calendar/update-focus-time/route.ts:107 | whole seconds of a non-zero expiry, null for none or zero |
| UpdateFocusTime.PatchColorId | app/api/calendar/update-focus-time/route.ts:179 | '8' for no priority, '11'/'5'/'2' for high/medium/low, and no colour exactly for a non-empty string outside the table |
| UpdateFocusTime.PatchSummary | app/api/calendar/update-focus-time/route.ts:180 | the name when non-empty, untrimmed, else 'Focus Time' |
| UpdateFocusTime.PatchErrorResponse | app/api/calendar/update-focus-time/route.ts:212-221 | Google's status or 500; fixed messages for 404 and 403, the error's own message otherwise |
| UpdateFocusTime.PatchFor | app/api/calendar/update-focus-time/route.ts:173-193 | the payload starts at the given start, ends the positive duration later, with the summary and colour rules |
| UpdateFocusTime.HandlePatch | app/api/calendar/update-focus-time/route.ts:24-222 | 401, 404, 500 and 400 for the session and token cases, an empty stored access token counting as none; 401 with the right message for each way the refresh fails; once the token step goes on, 400 for an unreadable body, for missing fields and for an invalid start, in that order; then the patch payload is sent, and a failed patch is mapped by the Google error mapping |
| FullCalendar.OrElse | components/full-calendar-view.tsx:109-111 | `a \|\| b`: the first value unless it is absent or empty |
| FullCalendar.MapEvent | components/full-calendar-view.tsx:104-118 | id kept; title only for a non-empty summary; start and end as `dateTime` else `date`; all-day exactly for a start date; focus exactly when the summary mentions focus time; the colour id kept |
| FullCalendar.FormatEvents | components/full-calendar-view.tsx:104-124 | exactly the mapped events with a start and an end |
| FullCalendar.FormatEventsAppend | components/full-calendar-view.tsx:121-124 | the filter keeps input order |
| FullCalendar.Palette | components/full-calendar-view.tsx:307-318 | a colour family exactly for the ids '1' to '11' |
| FullCalendar.EventColor | components/full-calendar-view.tsx:307-325 | the palette colour for a known id, else green for focus and blue otherwise |
| FullCalendar.TextColor | components/full-calendar-view.tsx:262-284 | the `text-…-800` class of the colour family the event is drawn in |
| FullCalendar.EventIcon | components/full-calendar-view.tsx:286 | the Target icon exactly for focus events |
| FullCalendar.EventClassNames | components/full-calendar-view.tsx:299-331 | the base classes, then the background class of the event's colour family first and its hover class last |
| FullCalendar.TextAndBackgroundAgree | components/full-calendar-view.tsx:262-331 | the background, border and hover classes are of the family the text colour names |
| FullCalendar.FallbackColors | components/full-calendar-view.tsx:274-283 | without a known colour id: green classes for focus, blue otherwise |
| FullCalendar.KnownColorIgnoresFocus | components/full-calendar-view.tsx:307-318 | with a known colour id the focus flag changes neither the class names nor the text colour |
| FullCalendar.Header | components/full-calendar-view.tsx:204-226 | the month of the current date before the calendar is ready; a full date in day view, month and year in month view; otherwise a range whose inclusive end is the day before the exclusive end, formatted by whether both ends share a month |
| Dashboard.SelectionOf | components/dashboard-layout.tsx:59 | the clicked event's details, a focus block exactly when `isFocusBlock` is truthy |
| Dashboard.MappedEventsAreNeverFocusBlocks | components/dashboard-layout.tsx:55-72 | an event mapped by the calendar view never selects as a focus block |
| Dashboard.DashboardState.constructor | components/dashboard-layout.tsx:40-46 | key 0, nothing selected or edited, nothing in flight |
| Dashboard.DashboardState.SidebarShown | components/dashboard-layout.tsx:231-253 | the edit form when editing, else the details when selected, else the controls |
| Dashboard.DashboardState.TriggerCalendarRefresh | components/dashboard-layout.tsx:48-53 | key up by exactly one, selection and editing cleared |
| Dashboard.DashboardState.HandleEventClick | components/dashboard-layout.tsx:55-72 | editing cleared and the clicked event selected |
| Dashboard.DashboardState.HandleCloseDetails | components/dashboard-layout.tsx:74-76 | only the selection cleared |
| Dashboard.DashboardState.HandleEditEvent | components/dashboard-layout.tsx:78-93 | a selected focus block moves to the edit form; nothing changes otherwise; selection and editing never both set |
| Dashboard.DashboardState.HandleCancelEdit | components/dashboard-layout.tsx:95-98 | only the editing state cleared |
| Dashboard.DashboardState.BeginUpdateEvent | components/dashboard-layout.tsx:100-121 | nothing without an edited event; otherwise in flight, with the request built from its id and the form |
| Dashboard.DashboardState.FinishUpdateEvent | components/dashboard-layout.tsx:123-140 | success refreshes, failure keeps the form; the in-flight flag is cleared either way |
| Dashboard.DashboardState.BeginDeleteEvent | components/dashboard-layout.tsx:143-155 | a request exactly when confirmed, naming the event and its calendar or 'primary' |
| Dashboard.DashboardState.FinishDeleteEvent | components/dashboard-layout.tsx:151-176 | success refreshes; the in-flight flag is cleared either way |
| Dashboard.EditPayloadAccepted | app/api/calendar/update-focus-time/route.ts:167-168 | the edit form's body passes the route's field check exactly when the event has an id and the duration is positive |
| FocusControls.DurationLabel | components/focus-controls-sidebar.tsx:19-26 | "Xh", "Ym" or "Xh Ym" with one space, zero parts omitted, "0m" when both are absent |
| FocusControls.FormatMinutes | components/focus-controls-sidebar.tsx:16-27 | "0m" for no minutes, minutes only under an hour, hours only for whole hours |
| FocusControls.FormatMinutesRoundTrip | components/focus-controls-sidebar.tsx:16-27 | every label of a non-negative duration reads back as that duration |
| FocusControls.DurationLabelRoundTrip | components/focus-controls-sidebar.tsx:19-26 | a label of non-negative parts reads back as hours times 60 plus minutes |
| FocusControls.AddRequest | components/focus-controls-sidebar.tsx:88-95 | duration, the name or nothing when empty, and the priority; never an explicit start |
| FocusControls.AddRequestAsScheduled | components/focus-controls-sidebar.tsx:88-95 | the route accepts the request exactly when the duration is positive; a blank name gives the default summary; high/medium/low give colours 11/5/2 |
| FocusControls.FocusControlsState.constructor | components/focus-controls-sidebar.tsx:31-41 | one hour, high priority, no name, settings loading |
| FocusControls.FocusControlsState.FinishFetchSettings | components/focus-controls-sidebar.tsx:44-64 | the stored flag or false when it answered, unchanged when it failed; loading ends |
| FocusControls.FocusControlsState.HandleDurationButtonClick | components/focus-controls-sidebar.tsx:66-70 | duration and slider set to the value, custom mode off |
| FocusControls.FocusControlsState.HandleSliderChange | components/focus-controls-sidebar.tsx:72-76 | slider set to the value, duration to its first element, custom mode on |
| FocusControls.FocusControlsState.BeginAddFocusTime | components/focus-controls-sidebar.tsx:78-95 | in flight, and the body is the add request of the current selection |
| FocusControls.FocusControlsState.FinishAddFocusTime | components/focus-controls-sidebar.tsx:113-116 | no longer in flight, nothing else changes |
| FocusControls.FocusControlsState.BeginAutoScheduleChange | components/focus-controls-sidebar.tsx:119-122 | the new value is shown at once and the old one returned for a rollback |
| FocusControls.FocusControlsState.FinishAutoScheduleChange | components/focus-controls-sidebar.tsx:124-146 | the saved value on success, the previous value on failure; no longer in flight |
| EventDetails.RoundedMinutes | components/focus-event-details-sidebar.tsx:39 | the nearest whole minute, halves up |
| EventDetails.CalculateDuration | components/focus-event-details-sidebar.tsx:36-50 | 'N/A' without both ends; "0m" whenever the rounded length is not positive |
| EventDetails.DurationReadsBack | components/focus-event-details-sidebar.tsx:36-50 | a non-negative range never reads 'N/A' and its label reads back as the rounded minutes |
| EventDetails.FormatDateTimeRange | components/focus-event-details-sidebar.tsx:27-33 | 'No start time' without a start; otherwise the start's date and time, then the end's time or 'No end time' |
| FocusTimer.ClockParts | components/focus-timer.tsx:6-8 | for a non-negative count, hours·3600 + minutes·60 + seconds recompose it with minutes and seconds in 0..59 |
| FocusTimer.FormatTime | components/focus-timer.tsx:5-15 | at least eight characters with ':' before each two-digit part |
| FocusTimer.PaddedDigits | components/focus-timer.tsx:10-12 | a padded part is at least two digits, exactly two below 100, never truncated, and worth the number |
| FocusTimer.FormatTimeRoundTrip | components/focus-timer.tsx:5-15 | the clock of any non-negative count reads back as that count, past 99 hours too |
| FocusTimer.Timer.constructor | components/focus-timer.tsx:29-33 | the count starts at the initial seconds, 0 by default, stopped |
| FocusTimer.Timer.Tick | components/focus-timer.tsx:37-41 | one more second exactly while active |
| FocusTimer.Timer.Start | components/focus-timer.tsx:57 | active, count kept |
| FocusTimer.Timer.Pause | components/focus-timer.tsx:58 | stopped, count kept |
| FocusTimer.Timer.Display | components/focus-timer.tsx:63 | the shown clock reads back as the elapsed seconds |
| Playlist.MusicPath | app/api/music/playlist/route.ts:16 | '/Music/' followed by the file name |
| Playlist.Mp3Playlist | app/api/music/playlist/route.ts:14-16 | no longer than the listing; exactly the `.mp3` names, in any letter case, as music paths |
| Playlist.Mp3PlaylistAppend | app/api/music/playlist/route.ts:14-18 | directory order is kept |
| Playlist.ErrorMessage | app/api/music/playlist/route.ts:22-25 | 'Music directory not found.' exactly for ENOENT, the generic message otherwise |
| Playlist.Get | app/api/music/playlist/route.ts:5-31 | a playlist exactly when the directory was read, empty for an empty one; otherwise 500 with the error message |
| LofiPlayer.AfterLastSlash | components/lofi-player.tsx:12 | the longest suffix without '/' |
| LofiPlayer.StripMp3Extension | components/lofi-player.tsx:13 | one trailing '.mp3' in any case removed, nothing else |
| LofiPlayer.StripTrackNumber | components/lofi-player.tsx:14 | a name starting with a digit loses exactly its whole leading run of digits and all the white space after it; other names are kept |
| LofiPlayer.StripTrackNumberOf | components/lofi-player.tsx:14 | a number and white space in front of a name starting with neither are removed, and nothing more |
| LofiPlayer.SeparatorsToSpaces | components/lofi-player.tsx:15 | every '-' and '_' becomes a space, everything else kept |
| LofiPlayer.TitleText | components/lofi-player.tsx:11-15 | the title text holds no '/', '-' or '_' |
| LofiPlayer.TitleOfNumberedTrack | components/lofi-player.tsx:9-17 | a numbered file such as 'dir/01 name.mp3' is titled by the name with its separators turned into spaces |
| LofiPlayer.FormatTrackTitle | components/lofi-player.tsx:9-17 | the title text, or 'Unknown Track' exactly when that is empty; never empty and free of '/', '-' and '_' |
| LofiPlayer.TitleIgnoresDirectory | components/lofi-player.tsx:12 | the directory of an entry never affects its title |
| LofiPlayer.PlaylistTitles | components/lofi-player.tsx:12 | a served playlist entry is titled by its file name alone |
| LofiPlayer.NextIndex | components/lofi-player.tsx:52 | the next index, wrapping from the last to the first |
| LofiPlayer.PreviousIndex | components/lofi-player.tsx:58 | the previous index, wrapping from the first to the last |
| LofiPlayer.PreviousUndoesNext | components/lofi-player.tsx:51-61 | next then previous, and previous then next, return to the same track |
| LofiPlayer.Player.constructor | components/lofi-player.tsx:31-32 | the first track, not playing |
| LofiPlayer.Player.CurrentTrackSrc | components/lofi-player.tsx:34 | the current track, or '' when the index is out of range |
| LofiPlayer.Player.PlayNext | components/lofi-player.tsx:51-55 | the index moves to the next track, within the playlist |
| LofiPlayer.Player.PlayPrevious | components/lofi-player.tsx:57-61 | the index moves to the previous track, within the playlist |
| LofiPlayer.Player.TogglePlayPause | components/lofi-player.tsx:93-100 | nothing without an audio element; otherwise playing flips and the matching callback is notified |
| Sorting.SortInPlace | app/api/calendar/add-focus-time/route.ts:122 | the array ends sorted by the key and is a permutation of the input |
| JsMath.Rem | components/focus-controls-sidebar.tsx:18 | JavaScript `%`: below the divisor in size, with the dividend's sign |
| JsMath.RoundDiv | components/focus-event-details-sidebar.tsx:39 | `Math.round` of a quotient: within half a divisor, halves rounded up |

## Left out

- Supabase, Google Calendar and OAuth calls, `fetch`, `confirm`, toasts, logging and the session check are not modelled. Their outcomes are handler parameters.
- The add route's own token refresh, and its 401 answer, are not modelled. The update route's refresh is (`UpdateFocusTime.RefreshIfNeeded`).
- The text of an ISO start time is not parsed: a start is absent, invalid or an instant (`Time.IsoTime`), and an invalid one falls back to the slot search as in the route.
- Time zones, daylight saving, seconds and milliseconds below a minute are not modelled. Times are local wall-clock minutes.
- The month grid's correctness against the civil calendar is not proved beyond its shape (whole weeks covering the month).
- `date-fns` `format` patterns are a parameter (`EventDetails.FormatDateTimeRange`) or a datatype naming the pattern (`FullCalendar.Header`). Their text is not modelled.
- Calendar-view widths, `left` offsets and `maxConcurrent` use floating-point arithmetic and are not modelled. Column and zIndex are.
- Sort stability of `Sorting.SortInPlace` is not proved, only sortedness and permutation. JavaScript's sort is stable, and `AddFocusTime.SortByStart` models that order.
- AddFocusTime.FindNextAvailableSlot: for a busy list holding an interval that ends before it starts, or for a negative duration, the result is stated only as the scan of some start-sorted order, because the in-place sort's tie order is not proved to be the stable one.
- AddFocusTime.SortAndScan: the same holds for the sorted scan on its own.
- AddFocusTime.HandlePost: for such a busy list the outcome of the search is stated only through the safety clauses (a clear working slot after the initial cursor).
- `NaN` and `Invalid Date` values are not modelled.
- Lower-casing of non-ASCII letters is not modelled (`Text.Lower` folds A-Z only).
- FocusControls.FocusControlsState.HandleSliderChange: requires a non-empty value, which the slider always sends.
- LofiPlayer.Player.PlayNext: requires a non-empty playlist, because the buttons are disabled otherwise. With an empty list the source computes `NaN`.
- LofiPlayer.Player.PlayPrevious: requires a non-empty playlist, for the same reason.
- The lofi player's track-change effect (lines 64-78) and its `ended` listener are not modelled. They reload the audio and call `PlayNext`.
- FocusTimer.Timer.Tick: models one interval callback. The `setInterval` scheduling and clean-up are not modelled.
- FocusControls.FocusControlsState.FinishAutoScheduleChange: takes the stored value as a boolean. A response without the field is not modelled.
- The setters for the session name and priority inputs are not modelled. They assign one field.
- UpdateFocusTime.PatchColorId: does not model keys inherited from `Object.prototype` (for example `"toString"`) that the colour-table lookup would also find.
- Playlist.Get: an error thrown without a `code` counts as a generic failure.
