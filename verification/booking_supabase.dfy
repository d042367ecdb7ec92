/** The booking path wired to the live POST route: a best-effort video meeting
    first, then the insert. There is no request validation, no calendar event,
    and no clean-up of a meeting whose booking could not be stored. */
module SupabaseBooking {
  import opened Fields
  import opened Records
  import BookingService

  const DefaultDurationMinutes: int := 30

  /** What the meeting provider answers: a meeting, a reported failure
      (`success: false`), or a thrown error. */
  datatype ZoomOutcome = ZoomCreated(meeting: ZoomMeeting) | ZoomRejected(error: string) | ZoomThrew(message: string)

  /** The `zoom_meeting` summary attached to the returned booking. */
  datatype ZoomSummary = ZoomSummary(joinUrl: string, password: Field<string>, meetingId: string)

  /** The stored row plus the `zoom_meeting` field (null when there is no meeting). */
  datatype StoredBooking = StoredBooking(row: Booking, zoomMeeting: Option<ZoomSummary>)

  /** The meeting kept for the booking: either failure mode leaves none. */
  function ObtainedMeeting(zoom: ZoomOutcome): (m: Option<ZoomMeeting>)
    ensures m.Some? <==> zoom.ZoomCreated?
    ensures m.Some? ==> m.value == zoom.meeting
  {
    match zoom
    case ZoomCreated(meeting) => Some(meeting)
    case ZoomRejected(_) => None
    case ZoomThrew(_) => None
  }

  /** A destructuring default: it replaces only an absent property, not a null one. */
  function WithDefault<T>(f: Field<T>, default: T): (r: Field<T>)
    ensures f.Missing? ==> r == Given(default)
    ensures !f.Missing? ==> r == f
  {
    if f.Missing? then Given(default) else f
  }

  /** The record inserted for `req` given the meeting obtained, if any. */
  function SupabaseRecord(req: BookingRequest, meeting: Option<ZoomMeeting>): NewBooking
  {
    NewBooking(
      req.attendeeEmail,
      req.attendeePhone,
      req.meetingDatetime,
      WithDefault(req.durationMinutes, DefaultDurationMinutes),
      WithDefault(req.recordingConsent, false),
      Confirmed,
      if meeting.Some? then OrNull(meeting.value.id) else Null,
      if meeting.Some? then OrNull(meeting.value.joinUrl) else Null)
  }

  function Summary(m: ZoomMeeting): ZoomSummary
  {
    ZoomSummary(m.joinUrl, m.password, m.id)
  }

  /** `createBookingSupabase`: try the meeting once, insert the booking with whatever
      meeting resulted, and report the stored row with the meeting summary. */
  function CreateBookingSupabase(req: BookingRequest, zoom: ZoomOutcome, insert: InsertOutcome)
    : (run: Run<StoredBooking>)
    ensures |run.trace| == 2 && run.trace[0] == CreateZoomMeeting(req) && run.trace[1].InsertBooking?
    ensures var record := run.trace[1].record;
      && record.status == Confirmed
      && record.attendeeEmail == req.attendeeEmail
      && record.attendeePhone == req.attendeePhone
      && record.meetingDatetime == req.meetingDatetime
      && (req.durationMinutes.Missing? ==> record.durationMinutes == Given(DefaultDurationMinutes))
      && (!req.durationMinutes.Missing? ==> record.durationMinutes == req.durationMinutes)
      && (req.recordingConsent.Missing? ==> record.recordingConsent == Given(false))
      && (!req.recordingConsent.Missing? ==> record.recordingConsent == req.recordingConsent)
    ensures !zoom.ZoomCreated? ==> run.trace[1].record.zoomMeetingId == Null && run.trace[1].record.zoomJoinUrl == Null
    ensures zoom.ZoomCreated? ==>
      && (zoom.meeting.id == "" ==> run.trace[1].record.zoomMeetingId == Null)
      && (zoom.meeting.id != "" ==> run.trace[1].record.zoomMeetingId == Given(zoom.meeting.id))
      && (zoom.meeting.joinUrl == "" ==> run.trace[1].record.zoomJoinUrl == Null)
      && (zoom.meeting.joinUrl != "" ==> run.trace[1].record.zoomJoinUrl == Given(zoom.meeting.joinUrl))
    ensures run.result.Succeeded? <==> insert.Inserted?
    ensures insert.InsertFailed? ==> run.result == Failed(BookingService.DatabaseErrorPrefix + insert.message, [])
    ensures run.result.Succeeded? ==>
      && run.result.booking.row == insert.row
      && (run.result.booking.zoomMeeting.None? <==> !zoom.ZoomCreated?)
      && (zoom.ZoomCreated? ==>
            run.result.booking.zoomMeeting ==
              Some(ZoomSummary(zoom.meeting.joinUrl, zoom.meeting.password, zoom.meeting.id)))
  {
    var meeting := ObtainedMeeting(zoom);
    var trace := [CreateZoomMeeting(req), InsertBooking(SupabaseRecord(req, meeting))];
    match insert
    case InsertFailed(message) => Run(Failed(BookingService.DatabaseErrorPrefix + message, []), trace)
    case Inserted(row) =>
      Run(Succeeded(StoredBooking(row, if meeting.Some? then Some(Summary(meeting.value)) else None)), trace)
  }

  /** The meeting outcome never decides the result: with the same insert answer, every
      meeting outcome gives the same verdict, and the records sent differ at most in
      their two meeting columns. */
  lemma ZoomFailureIsNotFatal(req: BookingRequest, zoom1: ZoomOutcome, zoom2: ZoomOutcome, insert: InsertOutcome)
    ensures var r1 := CreateBookingSupabase(req, zoom1, insert).result;
      var r2 := CreateBookingSupabase(req, zoom2, insert).result;
      && r1.Succeeded? == r2.Succeeded?
      && (r1.Failed? ==> r1 == r2)
    ensures CreateBookingSupabase(req, zoom1, insert).trace[1].record.(zoomMeetingId := Null, zoomJoinUrl := Null) ==
      CreateBookingSupabase(req, zoom2, insert).trace[1].record.(zoomMeetingId := Null, zoomJoinUrl := Null)
  {
  }

  /** A failed insert after a created meeting reports the database error and makes no
      further call: the meeting is left in place. */
  lemma InsertFailureLeavesMeeting(req: BookingRequest, meeting: ZoomMeeting, message: string)
    ensures var run := CreateBookingSupabase(req, ZoomCreated(meeting), InsertFailed(message));
      && run.result == Failed(BookingService.DatabaseErrorPrefix + message, [])
      && run.trace == [CreateZoomMeeting(req), InsertBooking(SupabaseRecord(req, Some(meeting)))]
  {
  }

  /** Nothing is validated on this path: a request the validator rejects on every
      required field still reaches the meeting provider and the insert. */
  lemma InvalidRequestStillInserted(env: BookingService.ValidationEnv, zoom: ZoomOutcome, insert: InsertOutcome)
    ensures var req := BookingRequest(Missing, Missing, Missing, Missing, Missing);
      && !BookingService.ValidateBookingRequest(env, req).isValid
      && |BookingService.ValidateBookingRequest(env, req).errors| == 3
      && CreateBookingSupabase(req, zoom, insert).trace[1].InsertBooking?
      && (insert.Inserted? ==> CreateBookingSupabase(req, zoom, insert).result.Succeeded?)
  {
    var req := BookingRequest(Missing, Missing, Missing, Missing, Missing);
    var v := BookingService.ValidateBookingRequest(env, req);
    assert v.errors == [BookingService.EmailRequired, BookingService.DatetimeRequired, BookingService.ConsentRequired];
  }
}
