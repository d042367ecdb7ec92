/** Values shared by the whole booking core: how JavaScript request properties
    are represented, and the record types of the booking domain. */
module Fields {

  /** The conventional present/absent wrapper, used for database columns that may be null. */
  datatype Option<+T> = None | Some(value: T)

  /** A property of a JavaScript object as the code reads it: absent (`undefined`),
      explicitly `null`, or given a value. Destructuring defaults fire only on `Missing`. */
  datatype Field<+T> = Missing | Null | Given(value: T)

  /** JavaScript truthiness of a string-valued property: `undefined`, `null` and `""` are falsy. */
  predicate Truthy(f: Field<string>)
  {
    f.Given? && f.value != ""
  }

  /** `x || null` for a string: a falsy string becomes `null`. */
  function OrNull(s: string): (r: Field<string>)
    ensures r.Null? <==> s == ""
    ensures r.Given? ==> r.value == s
  {
    if s == "" then Null else Given(s)
  }
}

/** The record types of the booking domain. An instant is a whole number of
    minutes since 1970-01-01T00:00Z; a calendar date is a whole number of days
    since 1970-01-01. */
module Records {
  import opened Fields

  type Instant = int
  type Day = int

  const MinutesPerDay: int := 1440

  datatype BookingStatus = Confirmed | Cancelled | Completed

  /** A half-hour slot offered to visitors. */
  datatype TimeSlot = TimeSlot(start: Instant, end: Instant, available: bool)

  /** The `meeting_datetime` string of a request, after `new Date(...)`: the empty
      string (falsy), a string that yields an invalid date, or a real instant. */
  datatype Datetime = Empty | Unparseable | At(instant: Instant)

  /** The JSON body of a booking request, every property possibly absent or null. */
  datatype BookingRequest = BookingRequest(
    attendeeEmail: Field<string>,
    attendeePhone: Field<string>,
    meetingDatetime: Field<Datetime>,
    durationMinutes: Field<int>,
    recordingConsent: Field<bool>)

  /** A row of the `bookings` table as the database returns it. */
  datatype Booking = Booking(
    id: int,
    attendeeEmail: string,
    attendeePhone: Option<string>,
    meetingDatetime: Instant,
    durationMinutes: int,
    recordingConsent: bool,
    zoomMeetingId: Option<string>,
    zoomJoinUrl: Option<string>,
    googleEventId: Option<string>,
    attendeeGoogleEventId: Option<string>,
    status: BookingStatus,
    createdAt: Instant,
    updatedAt: Instant)

  /** The column values an insert sends; a `Missing` column is left to the table's default. */
  datatype NewBooking = NewBooking(
    attendeeEmail: Field<string>,
    attendeePhone: Field<string>,
    meetingDatetime: Field<Datetime>,
    durationMinutes: Field<int>,
    recordingConsent: Field<bool>,
    status: BookingStatus,
    zoomMeetingId: Field<string>,
    zoomJoinUrl: Field<string>)

  /** A meeting as the video-conference provider reports it. */
  datatype ZoomMeeting = ZoomMeeting(id: string, joinUrl: string, password: Field<string>)

  /** One side-effecting call an orchestrator makes on a collaborator. */
  datatype Call =
    | CreateZoomMeeting(request: BookingRequest)
    | InsertBooking(record: NewBooking)
    | CreateCalendarEvent(booking: Booking)
    | SetGoogleEventId(bookingId: int, eventId: string)

  /** What an orchestrator returns to the route: the booking, or a message plus
      the validation errors (empty when the failure is not a validation failure). */
  datatype Outcome<+T> = Succeeded(booking: T) | Failed(error: string, errors: seq<string>)

  /** An orchestrator's result together with the calls it made, in order. */
  datatype Run<+T> = Run(result: Outcome<T>, trace: seq<Call>)

  /** What the database answers to an insert: the stored row or an error message. */
  datatype InsertOutcome = Inserted(row: Booking) | InsertFailed(message: string)
}
