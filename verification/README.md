# Availability and booking core, modelled in Dafny

This project models the scheduling core of a meeting-booking web application.
The application lets a visitor pick a free half-hour slot and book it. The core has four parts:

- **Business-day calendar** (`holidays.dfy`, module `Holidays`). A date is a business day when it is neither Saturday nor Sunday and no public holiday of its year falls on it. The module also finds the next business day, collects business days over a window, and names a date's holiday.
- **Slot generation and availability** (`calendar.dfy`, module `Calendar`). It lists the half-hour slots from 07:00 to 17:00 in the business's reference time zone and drops slots already past today. Each slot is marked unavailable when a busy calendar event overlaps it. There are no slots on a non-business day. If the calendar read fails, every slot is offered as available.
- **Validator and calendar-first orchestrator** (`booking.dfy`, module `BookingService`). `validateBookingRequest` collects every error message in a fixed order. `createBooking` validates, inserts the row, creates a calendar event and stores the event id on the row. Any failure after the insert fails the whole booking.
- **Meeting-first orchestrator** (`booking_supabase.dfy`, module `SupabaseBooking`). `createBookingSupabase` is the path the live POST route uses. It tries to create a video meeting, and a failure there does not stop the booking. It then inserts the row with the meeting's details and returns the stored row with a meeting summary.

Shared types are in `records.dfy`: the `Fields` module for JavaScript's absent, null and present values, and the `Records` module for the booking, slot, request and call records.

The model makes these modelling choices:

- An instant is a whole number of minutes since 1970-01-01T00:00Z. A calendar date is a whole number of days since 1970-01-01, which was a Thursday.
- The holiday library becomes a `HolidayTable`, which gives each year's holiday list. A date's year is computed with the Gregorian days-to-civil conversion.
- The reference time zone (America/Denver) becomes a `ZoneOffset`, which gives the UTC offset on each local date. The local minute `m` of date `d` is the instant `d*1440 + m - offset(d)`. The validator's server-local `getHours()` becomes an abstract `hourOf` function.
- "Now" and "today's date in the reference zone" are inputs (`Clock`, `ValidationEnv.now`).
- Each external service is represented by the answer it gives. These are the busy events or a failed read, the database insert and update outcomes, the calendar-event outcome, and the meeting-provider outcome. Each orchestrator is a pure function. It returns a `Run`: the result plus the ordered trace of calls it made.
- A JavaScript property is `Missing` (undefined), `Null` or `Given(v)`. This keeps three things distinct in the code: `!x`, `x === undefined || x === null`, and destructuring defaults, which replace only `undefined`.
- `meeting_datetime` is `Empty` (the falsy empty string), `Unparseable` (an invalid `Date`) or `At(t)`.

Where the code does something other than what one would expect of it, the model follows the code:

- **Unparseable datetimes pass validation.** One would expect an unparseable meeting time to be rejected. In the code, an unparseable string gives an invalid `Date`, and every comparison on an invalid `Date` is false. So such a request gets neither the past-time error nor the business-hours error (`BookingService.InPast`, `BookingService.OffHours`).
- **No step cap in `getNextBusinessDay`.** The loop in src/lib/holidays.js:39-41 has no bound, so `Holidays.NextBusinessDay` requires that some later business day exists.
- **A calendar failure fails the booking.** The comment at src/lib/booking.js:103 says not to fail the entire booking for calendar errors, yet the next lines return a failure. The row is already stored at that point. The model follows the return. The meeting-first path has no calendar step at all.
- **No clean-up of an orphaned meeting.** The comment at src/lib/booking-supabase.js:83-86 says the meeting should be cleaned up when the insert fails. The code only logs this, so the model issues no such call.
- **Validator and slots use different hours.** Both hour checks run on the server's local clock: slots are built with host-local `new Date(y, m, d, h, min)` (src/lib/calendar.js:107). The validator accepts hours 9–17, while slot generation covers 07:00–17:00. The model takes the host zone to be the reference zone for slots (see "## Left out") and keeps the validator's `hourOf` abstract.

## Model

| member | source | states |
|---|---|---|
| `Holidays.AnyOnDay` | src/lib/holidays.js:22-25 | the holiday scan reports a match exactly when some holiday of the list falls on that day |
| `Holidays.FirstOnDay` | src/lib/holidays.js:77-80 | the holiday search yields the first position whose holiday falls on the day; it yields nothing exactly when no holiday matches |
| `Holidays.IsBusinessDay` | src/lib/holidays.js:11-28 | Sunday (0) and Saturday (6) are never business days; a weekday is a business day iff no holiday of its year's list falls on it |
| `Holidays.HolidayName` | src/lib/holidays.js:73-83 | null iff no holiday of the year falls on the date; otherwise the name of the first holiday in the list that does |
| `Holidays.BusinessDayIffNoHolidayName` | src/lib/holidays.js:19-27 | on a weekday, being a business day is the same as having no holiday name, because both use the same whole-day match |
| `Holidays.DayNumberingAnchors` | src/lib/holidays.js:13-19 | the year and weekday derived from a day number agree with the calendar: 2025-12-31 is in 2025 and 2026-01-01 in 2026, 1970-01-01 was a Thursday and 2025-12-15 a Monday |
| `Holidays.NextBusinessDay` | src/lib/holidays.js:35-44 | the result lies strictly after the start, is a business day, and every day strictly between is not one |
| `Holidays.BusinessDaysInSound` | src/lib/holidays.js:57-62 | every day the scan of a window collects is a business day inside that window |
| `Holidays.BusinessDaysInAscending` | src/lib/holidays.js:57-62 | the days a scan collects are strictly ascending |
| `Holidays.BusinessDaysInComplete` | src/lib/holidays.js:57-62 | a scan skips no business day of its window |
| `Holidays.BusinessDaysInRange` | src/lib/holidays.js:52-66 | returns min(n, k) days, where k is the number of business days in [s, s+2n). These are the first business days of that window: all business days, strictly ascending, inside the window, none skipped up to the last returned day, and all of them when fewer than n were found. The result is empty for n <= 0 |
| `Calendar.FullDayShape` | src/lib/calendar.js:90-118 | a full day has exactly 20 slots, the first at 07:00 local and the last at 16:30. Each ends 30 minutes after it starts and defaults to available. Each starts at a local minute in [07:00, 17:00) on a half hour, and the starts strictly increase |
| `Calendar.UpcomingNotToday` | src/lib/calendar.js:110-113 | on a date other than today no slot is dropped |
| `Calendar.UpcomingMembers` | src/lib/calendar.js:110-115 | a slot is kept iff it is in the input and not past (today and starting at or before now) |
| `Calendar.UpcomingIsSuffix` | src/lib/calendar.js:103-115 | on slots in ascending order, the kept slots are a suffix of the input |
| `Calendar.CollectSlots` | src/lib/calendar.js:103-128 | the nested hour/minute loops emit exactly the full day's slots that are not past, in order |
| `Calendar.CollectHour` | src/lib/calendar.js:104-127 | one pass of the minute loop adds exactly the hour's :00 and :30 slots that are not past, after the slots already collected |
| `Calendar.CollectSlot` | src/lib/calendar.js:107-126 | a slot at a half-hour minute of the window is appended exactly when it is not past (today and at or before now), so what is collected stays the upcoming part of the day so far |
| `Calendar.GenerateTimeSlots` | src/lib/calendar.js:88-131 | 20 slots on any day but today, and a suffix of those 20 on today. Today no slot starts at or before now. Every slot is 30 minutes long and available, starts inside 07:00–17:00 local on a half hour, and the starts strictly increase |
| `Calendar.SomeEventBlocks` | src/lib/calendar.js:54-61 | the `.some` scan for one slot throws iff it reaches an event without bounds before any event that blocks the slot. Otherwise it reports a conflict iff some event with parsed bounds has slot.start < event.end and slot.end > event.start; unparsed bounds never conflict |
| `Calendar.MarkAvailability` | src/lib/calendar.js:53-67 | the mapping throws iff the check of some slot throws. Otherwise it keeps length and every slot's start and end, and a slot is available iff no listed event blocks it |
| `Calendar.BoundedEventsNeverThrow` | src/lib/calendar.js:53-61 | when every listed event has bounds, the mapping never throws |
| `Calendar.BlockingEventShieldsLaterUntimed` | src/lib/calendar.js:54-61 | the scan stops at the first blocking event, so an event without bounds after it is never read; the same event before it makes the check throw |
| `Calendar.AllAvailable` | src/lib/calendar.js:79 | keeps length and every slot's bounds and marks every slot available |
| `Calendar.FallbackSlots` | src/lib/calendar.js:69-80 | after a failed read, a non-business day still yields no slots; otherwise every generated slot is offered as available |
| `Calendar.GetAvailableTimeSlots` | src/lib/calendar.js:9-81 | no slots on a non-business day, on either path. A failed read yields every generated slot as available. A successful read whose mapping throws (an event without bounds reached for some slot) also yields every generated slot as available. Any other successful read yields one slot per generated slot, with the same bounds, available iff no listed event strictly overlaps it |
| `Calendar.ExactEventBlocksOnlyItsSlot` | src/lib/calendar.js:60 | an event spanning exactly one slot of the day blocks that slot and no other; the neighbours only touch its boundaries |
| `BookingService.IsValidEmailMatchesPattern` | src/lib/booking.js:185-188 | the scan accepts exactly the strings of the form A@B.C with non-empty parts free of whitespace and '@' |
| `BookingService.ValidEmailHasOneAt` | src/lib/booking.js:185-188 | an accepted address contains exactly one '@' |
| `BookingService.ValidateBookingRequest` | src/lib/booking.js:9-50 | valid iff there are no errors. Each message appears iff its own check fails, so all failures are reported. The email-format error needs a non-empty email, and consent `false` is accepted. The time errors need a parsed instant: "past" iff it is at or before now, and "business hours" iff its hour is outside [9, 17). The messages come in check order, with no repeats |
| `BookingService.ConsentFalseIsAccepted` | src/lib/booking.js:21-23 | consent given as `false` never produces the consent-required error |
| `BookingService.MissingFieldsAllReported` | src/lib/booking.js:12-23 | a request missing both datetime and consent reports both errors |
| `BookingService.CreateBooking` | src/lib/booking.js:57-122 | an invalid request returns 'Validation failed' with the errors and makes no call. Success happens iff validation, insert, event creation and update all succeed. The insert goes first. It sends only email, phone, datetime, consent and status confirmed. The phone is sent as given, or null when it is falsy. No duration or meeting columns are sent. A failed insert gives 'Database error: …' and no further call. After a successful insert the second call creates the event for the inserted row. If the event fails, that is the last call. If it is created, the third and last call writes its id onto that row. An event or update failure gives 'Calendar event creation failed: …'. On success the row carries the event id |
| `BookingService.CalendarFailureOrphansRow` | src/lib/booking.js:89-108 | a calendar failure after a successful insert reports failure while the confirmed row was already inserted |
| `SupabaseBooking.CreateBookingSupabase` | src/lib/booking-supabase.js:31-117 | one meeting attempt, then the insert, and no other call, whatever the request. The record has status confirmed, with duration 30 and consent false when absent. Its meeting id and join URL are null without a meeting and otherwise copied from it (null if empty). It succeeds iff the insert does; a failed insert gives 'Database error: …'. On success it returns the stored row, with `zoom_meeting` null iff there is no meeting and otherwise {join_url, password, meeting_id} |
| `SupabaseBooking.ZoomFailureIsNotFatal` | src/lib/booking-supabase.js:43-59 | the meeting outcome never changes the verdict, and changes the inserted record only in its two meeting columns |
| `SupabaseBooking.InsertFailureLeavesMeeting` | src/lib/booking-supabase.js:80-93 | after a created meeting, a failed insert reports the database error and issues no compensating call |
| `SupabaseBooking.InvalidRequestStillInserted` | src/lib/booking-supabase.js:31-78 | a request the validator rejects on all three required fields still reaches the meeting provider and the insert |

## Left out

- Time-zone and daylight-saving resolution are abstract. The model does not resolve `toLocaleString(..., 'America/Denver')`, host-local `new Date(y, m, d, h, min)` or `getMountainTimeOffset` (src/lib/calendar.js:137-149). The per-date offset is an input, and the host zone is taken to be the reference zone. `getMountainTimeOffset` is not modelled.
- Comparing a slot with "now" is modelled as an instant comparison. The source compares two wall-clock readings that agree only when the server runs in the reference zone.
- The fallback path of `getAvailableTimeSlots` generates the slots again. The model uses the same clock for that second call.
- A holiday's date is compared as a calendar day number. The UTC-versus-local day and year shifts of `toISOString()` and `getFullYear()` are not modelled.
- `new Date(...)` parsing of `meeting_datetime` is not modelled. It is an input: empty, unparseable, or an instant.
- The OAuth client, the Google Calendar list and insert requests, the SQL and Supabase clients, and axios are external services. They are represented by the answers they give. The event payload that `createCalendarEvent` builds is not modelled.
- `src/lib/zoom.js` is not part of this model. The meeting provider is its outcome. Its shared token cache matters only under concurrency.
- `initializeDatabase` (src/lib/booking-supabase.js:5-28) is not modelled. It is table-creation plumbing.
- A `null` request body is not modelled. It makes the destructuring in `createBookingSupabase` throw, and the outer `catch` then returns 'Booking creation failed: …' (src/lib/booking-supabase.js:110-115). That result is not modelled. In `createBooking`, the validator's property access throws, and the outer `catch` reports 'Database error: …' (src/lib/booking.js:115-121). That result is not modelled either. A string, number or boolean body reads every property as undefined. The model covers that body as an all-absent request.
- An insert that reports no error but returns no row is not modelled. The two orchestrators fail differently in that case. In `createBooking`, `createCalendarEvent` reads the missing row's `meeting_datetime` (src/lib/booking.js:140). Its rejection is caught by the inner `catch`, which returns 'Calendar event creation failed: …' (src/lib/booking.js:101-107). In `createBookingSupabase`, reading `data.id` (src/lib/booking-supabase.js:95) throws into the outer `catch`, which returns 'Booking creation failed: …'.
- How a listed event's bounds become instants is not modelled. This covers the choice of `dateTime || date` and the reading of a date-only value as UTC midnight (src/lib/calendar.js:55-56). An event's bounds are given as instants, as unparseable, or as missing.
- Logging (`console.*`) and the `mountainTimeDisplay` label are not modelled.
- No double-booking guard is modelled, because the code has none.
- UI components, route handlers, DDL and connection scripts are not modelled.
- Holidays.NextBusinessDay: requires that a business day exists after the start date. With no such day, the source loop never ends.
