/** The booking validator and the validate → insert → calendar event → update
    orchestrator. A calendar failure after the insert fails the whole booking
    even though the row already exists. */
module BookingService {
  import opened Fields
  import opened Records

  const EmailRequired: string := "Email address is required"
  const DatetimeRequired: string := "Meeting date and time is required"
  const ConsentRequired: string := "Recording consent is required"
  const InvalidEmail: string := "Invalid email address"
  const PastMeeting: string := "Meeting time cannot be in the past"
  const OutsideHours: string := "Meeting time must be during business hours (9 AM - 5 PM)"

  const ValidationFailed: string := "Validation failed"
  const DatabaseErrorPrefix: string := "Database error: "
  const CalendarErrorPrefix: string := "Calendar event creation failed: "

  const BusinessOpenHour: int := 9
  const BusinessCloseHour: int := 17

  /** The current instant, and the hour of day the server's clock shows for an instant. */
  datatype ValidationEnv = ValidationEnv(now: Instant, hourOf: Instant -> int)

  datatype Validation = Validation(isValid: bool, errors: seq<string>)

  /** JavaScript's `\s` character class. */
  predicate IsJsWhitespace(c: char)
  {
    || c == ' ' || c == '\t' || c == '\n' || c == '\U{B}' || c == '\U{C}' || c == '\r'
    || c == '\U{A0}' || c == '\U{1680}' || ('\U{2000}' <= c <= '\U{200A}')
    || c == '\U{2028}' || c == '\U{2029}' || c == '\U{202F}' || c == '\U{205F}'
    || c == '\U{3000}' || c == '\U{FEFF}'
  }

  /** One part of the email pattern: `[^\s@]+`. */
  predicate IsPart(s: string)
  {
    |s| > 0 && forall i :: 0 <= i < |s| ==> s[i] != '@' && !IsJsWhitespace(s[i])
  }

  /** `/^[^\s@]+@[^\s@]+\.[^\s@]+$/` read as a predicate: some split A@B.C with
      non-empty parts free of whitespace and '@'. */
  ghost predicate MatchesEmailPattern(s: string)
  {
    exists p, q :: 0 <= p < q < |s| && s[p] == '@' && s[q] == '.' &&
      IsPart(s[..p]) && IsPart(s[p + 1..q]) && IsPart(s[q + 1..])
  }

  /** The position of the first `c` in `s`, or `|s|` when there is none. */
  function IndexOf(s: string, c: char): (i: nat)
    ensures i <= |s|
    ensures i < |s| ==> s[i] == c
    ensures forall j :: 0 <= j < i ==> s[j] != c
  {
    if s == [] then 0
    else if s[0] == c then 0
    else
      var rest := IndexOf(s[1..], c);
      assert forall j :: 0 < j <= rest ==> s[j] == s[1..][j - 1];
      1 + rest
  }

  /** `isValidEmail`, as a scan: one '@' after a non-empty prefix, no whitespace,
      and a '.' with at least one character on each side after the '@'. */
  predicate IsValidEmail(s: string)
  {
    var p := IndexOf(s, '@');
    && 0 < p < |s|
    && (forall i :: 0 <= i < |s| ==> !IsJsWhitespace(s[i]))
    && (forall i :: p < i < |s| ==> s[i] != '@')
    && (exists q :: p + 1 < q < |s| - 1 && s[q] == '.')
  }

  /** The characters of a part, read back at their positions in the whole string. */
  lemma PartCharacters(s: string, lo: int, hi: int)
    requires 0 <= lo <= hi <= |s| && IsPart(s[lo..hi])
    ensures lo < hi
    ensures forall i :: lo <= i < hi ==> s[i] != '@' && !IsJsWhitespace(s[i])
  {
    assert forall i :: lo <= i < hi ==> s[i] == s[lo..hi][i - lo];
  }

  /** The pattern's three parts and its two separators leave no whitespace. */
  lemma SplitHasNoWhitespace(s: string, p0: int, q0: int)
    requires 0 <= p0 < q0 < |s| && s[p0] == '@' && s[q0] == '.'
    requires IsPart(s[..p0]) && IsPart(s[p0 + 1..q0]) && IsPart(s[q0 + 1..])
    ensures forall i :: 0 <= i < |s| ==> !IsJsWhitespace(s[i])
  {
    assert s[..p0] == s[0..p0];
    assert s[q0 + 1..] == s[q0 + 1..|s|];
    PartCharacters(s, 0, p0);
    PartCharacters(s, p0 + 1, q0);
    PartCharacters(s, q0 + 1, |s|);
    forall i | 0 <= i < |s|
      ensures !IsJsWhitespace(s[i])
    {
      if i == p0 || i == q0 {
        assert s[i] == '@' || s[i] == '.';
      }
    }
  }

  /** After the pattern's '@' there is no other. */
  lemma SplitHasOneAt(s: string, p0: int, q0: int)
    requires 0 <= p0 < q0 < |s| && s[p0] == '@' && s[q0] == '.'
    requires IsPart(s[..p0]) && IsPart(s[p0 + 1..q0]) && IsPart(s[q0 + 1..])
    ensures IndexOf(s, '@') == p0
    ensures forall i :: p0 < i < |s| ==> s[i] != '@'
  {
    assert s[..p0] == s[0..p0];
    assert s[q0 + 1..] == s[q0 + 1..|s|];
    PartCharacters(s, 0, p0);
    PartCharacters(s, p0 + 1, q0);
    PartCharacters(s, q0 + 1, |s|);
  }

  /** Every address the pattern matches passes the scan. */
  lemma PatternImpliesValidEmail(s: string)
    requires MatchesEmailPattern(s)
    ensures IsValidEmail(s)
  {
    var p0, q0 :| 0 <= p0 < q0 < |s| && s[p0] == '@' && s[q0] == '.' &&
      IsPart(s[..p0]) && IsPart(s[p0 + 1..q0]) && IsPart(s[q0 + 1..]);
    SplitHasNoWhitespace(s, p0, q0);
    SplitHasOneAt(s, p0, q0);
    assert |s[..p0]| > 0 && |s[q0 + 1..]| > 0;
  }

  /** Every address that passes the scan is matched by the pattern. */
  lemma ValidEmailImpliesPattern(s: string)
    requires IsValidEmail(s)
    ensures MatchesEmailPattern(s)
  {
    var p := IndexOf(s, '@');
    var q :| p + 1 < q < |s| - 1 && s[q] == '.';
    assert IsPart(s[..p]);
    assert IsPart(s[p + 1..q]);
    assert IsPart(s[q + 1..]);
  }

  /** `isValidEmail` accepts exactly the strings its regular expression matches. */
  lemma IsValidEmailMatchesPattern(s: string)
    ensures IsValidEmail(s) <==> MatchesEmailPattern(s)
  {
    if MatchesEmailPattern(s) {
      PatternImpliesValidEmail(s);
    }
    if IsValidEmail(s) {
      ValidEmailImpliesPattern(s);
    }
  }

  /** A valid address contains exactly one '@'. */
  lemma ValidEmailHasOneAt(s: string)
    requires IsValidEmail(s)
    ensures exists p :: 0 <= p < |s| && s[p] == '@' && forall i :: 0 <= i < |s| && s[i] == '@' ==> i == p
  {
    var p := IndexOf(s, '@');
    assert s[p] == '@';
  }

  /** `!request.meeting_datetime` is false: the property is a non-empty string. */
  predicate HasDatetime(req: BookingRequest)
  {
    req.meetingDatetime.Given? && !req.meetingDatetime.value.Empty?
  }

  predicate EmailMissing(req: BookingRequest) { !Truthy(req.attendeeEmail) }
  predicate DatetimeMissing(req: BookingRequest) { !HasDatetime(req) }
  predicate ConsentMissing(req: BookingRequest) { !req.recordingConsent.Given? }
  predicate EmailMalformed(req: BookingRequest)
  {
    Truthy(req.attendeeEmail) && !IsValidEmail(req.attendeeEmail.value)
  }
  predicate InPast(env: ValidationEnv, req: BookingRequest)
  {
    req.meetingDatetime.Given? && req.meetingDatetime.value.At? &&
    req.meetingDatetime.value.instant <= env.now
  }
  predicate OffHours(env: ValidationEnv, req: BookingRequest)
  {
    req.meetingDatetime.Given? && req.meetingDatetime.value.At? &&
    var hour := env.hourOf(req.meetingDatetime.value.instant);
    hour < BusinessOpenHour || hour >= BusinessCloseHour
  }

  /** The position of a message in the order the checks run. */
  function Rank(m: string): nat
  {
    if m == EmailRequired then 0
    else if m == DatetimeRequired then 1
    else if m == ConsentRequired then 2
    else if m == InvalidEmail then 3
    else if m == PastMeeting then 4
    else if m == OutsideHours then 5
    else 6
  }

  lemma RankOfMessages()
    ensures Rank(EmailRequired) == 0 && Rank(DatetimeRequired) == 1 && Rank(ConsentRequired) == 2
    ensures Rank(InvalidEmail) == 3 && Rank(PastMeeting) == 4 && Rank(OutsideHours) == 5
  {
    // Telling characters apart shows the solver that the six messages are distinct.
    assert EmailRequired[0] == 'E' && DatetimeRequired[0] == 'M' && ConsentRequired[0] == 'R';
    assert InvalidEmail[0] == 'I' && PastMeeting[8] == 't' && OutsideHours[8] == 't';
    assert PastMeeting[13] == 'c' && OutsideHours[13] == 'm';
  }

  function When(condition: bool, message: string): seq<string>
  {
    if condition then [message] else []
  }

  /** Messages listed in strictly increasing check order, each one of the six. */
  predicate InCheckOrder(errors: seq<string>)
  {
    && (forall i :: 0 <= i < |errors| ==> Rank(errors[i]) < 6)
    && (forall i, j :: 0 <= i < j < |errors| ==> Rank(errors[i]) < Rank(errors[j]))
  }

  lemma AppendInCheckOrder(errors: seq<string>, condition: bool, message: string)
    requires InCheckOrder(errors) && Rank(message) < 6
    requires forall i :: 0 <= i < |errors| ==> Rank(errors[i]) < Rank(message)
    ensures InCheckOrder(errors + When(condition, message))
    ensures forall i :: 0 <= i < |errors + When(condition, message)| ==>
      Rank((errors + When(condition, message))[i]) <= Rank(message)
  {
  }

  /** Each message is collected exactly when its check fails. */
  lemma CollectedMembers(c0: bool, c1: bool, c2: bool, c3: bool, c4: bool, c5: bool)
    ensures var errors :=
      When(c0, EmailRequired) + When(c1, DatetimeRequired) + When(c2, ConsentRequired) +
      When(c3, InvalidEmail) + When(c4, PastMeeting) + When(c5, OutsideHours);
      && (EmailRequired in errors <==> c0)
      && (DatetimeRequired in errors <==> c1)
      && (ConsentRequired in errors <==> c2)
      && (InvalidEmail in errors <==> c3)
      && (PastMeeting in errors <==> c4)
      && (OutsideHours in errors <==> c5)
      && (errors == [] <==> !(c0 || c1 || c2 || c3 || c4 || c5))
  {
    // Distinct lengths show the solver that the six messages are distinct.
    assert |EmailRequired| == 25 && |DatetimeRequired| == 33 && |ConsentRequired| == 29;
    assert |InvalidEmail| == 21 && |PastMeeting| == 34 && |OutsideHours| == 56;
  }

  /** Six messages of ranks 0 to 5, collected in rank order, stay in check order. */
  lemma RankedCollectionInCheckOrder(m0: string, m1: string, m2: string, m3: string, m4: string, m5: string,
                                     c0: bool, c1: bool, c2: bool, c3: bool, c4: bool, c5: bool)
    requires Rank(m0) == 0 && Rank(m1) == 1 && Rank(m2) == 2
    requires Rank(m3) == 3 && Rank(m4) == 4 && Rank(m5) == 5
    ensures InCheckOrder(When(c0, m0) + When(c1, m1) + When(c2, m2) + When(c3, m3) + When(c4, m4) + When(c5, m5))
  {
    var e0 := When(c0, m0);
    AppendInCheckOrder([], c0, m0);
    assert [] + e0 == e0;
    AppendInCheckOrder(e0, c1, m1);
    var e1 := e0 + When(c1, m1);
    AppendInCheckOrder(e1, c2, m2);
    var e2 := e1 + When(c2, m2);
    AppendInCheckOrder(e2, c3, m3);
    var e3 := e2 + When(c3, m3);
    AppendInCheckOrder(e3, c4, m4);
    var e4 := e3 + When(c4, m4);
    AppendInCheckOrder(e4, c5, m5);
  }

  /** The collected messages come out in the order the checks run. */
  lemma CollectedInCheckOrder(c0: bool, c1: bool, c2: bool, c3: bool, c4: bool, c5: bool)
    ensures InCheckOrder(
      When(c0, EmailRequired) + When(c1, DatetimeRequired) + When(c2, ConsentRequired) +
      When(c3, InvalidEmail) + When(c4, PastMeeting) + When(c5, OutsideHours))
  {
    RankOfMessages();
    RankedCollectionInCheckOrder(EmailRequired, DatetimeRequired, ConsentRequired,
      InvalidEmail, PastMeeting, OutsideHours, c0, c1, c2, c3, c4, c5);
  }

  /** `validateBookingRequest`: run every check, collecting one message per failed check. */
  function ValidateBookingRequest(env: ValidationEnv, req: BookingRequest): (v: Validation)
    ensures v.isValid <==> v.errors == []
    ensures EmailRequired in v.errors <==> EmailMissing(req)
    ensures DatetimeRequired in v.errors <==> DatetimeMissing(req)
    ensures ConsentRequired in v.errors <==> ConsentMissing(req)
    ensures InvalidEmail in v.errors <==> EmailMalformed(req)
    ensures PastMeeting in v.errors <==> InPast(env, req)
    ensures OutsideHours in v.errors <==> OffHours(env, req)
    ensures forall i :: 0 <= i < |v.errors| ==> Rank(v.errors[i]) < 6
    ensures forall i, j :: 0 <= i < j < |v.errors| ==> Rank(v.errors[i]) < Rank(v.errors[j])
  {
    var errors :=
      When(EmailMissing(req), EmailRequired) +
      When(DatetimeMissing(req), DatetimeRequired) +
      When(ConsentMissing(req), ConsentRequired) +
      When(EmailMalformed(req), InvalidEmail) +
      When(InPast(env, req), PastMeeting) +
      When(OffHours(env, req), OutsideHours);
    CollectedMembers(EmailMissing(req), DatetimeMissing(req), ConsentMissing(req),
      EmailMalformed(req), InPast(env, req), OffHours(env, req));
    CollectedInCheckOrder(EmailMissing(req), DatetimeMissing(req), ConsentMissing(req),
      EmailMalformed(req), InPast(env, req), OffHours(env, req));
    Validation(|errors| == 0, errors)
  }

  /** `recording_consent: false` is an answer; only an absent or null one is reported. */
  lemma ConsentFalseIsAccepted(env: ValidationEnv, req: BookingRequest)
    requires req.recordingConsent == Given(false)
    ensures ConsentRequired !in ValidateBookingRequest(env, req).errors
  {
  }

  /** A request without datetime and consent reports both, not just the first. */
  lemma MissingFieldsAllReported(env: ValidationEnv, email: string)
    ensures var req := BookingRequest(Given(email), Missing, Missing, Missing, Missing);
      var v := ValidateBookingRequest(env, req);
      DatetimeRequired in v.errors && ConsentRequired in v.errors && !v.isValid
  {
  }

  /** What the calendar provider answers to the event insert. */
  datatype CalendarOutcome = EventCreated(eventId: string) | EventFailed(message: string)

  /** What the database answers to setting the event id on the row. */
  datatype UpdateOutcome = Updated | UpdateFailed(message: string)

  /** The columns `createBooking` inserts: the phone as `phone || null`, status confirmed,
      and no duration or video-meeting columns. */
  function InsertRecord(req: BookingRequest): NewBooking
  {
    NewBooking(
      req.attendeeEmail,
      if Truthy(req.attendeePhone) then req.attendeePhone else Null,
      req.meetingDatetime,
      Missing,
      req.recordingConsent,
      Confirmed,
      Missing,
      Missing)
  }

  /** `createBooking`: validate, insert the row, create the calendar event for it, then
      store the event id on the row. Each collaborator's answer is an input; the run
      records the calls made. */
  function CreateBooking(env: ValidationEnv, req: BookingRequest, insert: InsertOutcome,
                         event: CalendarOutcome, update: UpdateOutcome): (run: Run<Booking>)
    ensures var v := ValidateBookingRequest(env, req);
      run.result.Succeeded? <==> v.isValid && insert.Inserted? && event.EventCreated? && update.Updated?
    ensures var v := ValidateBookingRequest(env, req);
      !v.isValid ==> run.result == Failed(ValidationFailed, v.errors) && run.trace == []
    ensures ValidateBookingRequest(env, req).isValid ==>
      1 <= |run.trace| <= 3 && run.trace[0].InsertBooking? &&
      var record := run.trace[0].record;
      && record.status == Confirmed
      && record.attendeeEmail == req.attendeeEmail
      && record.meetingDatetime == req.meetingDatetime
      && record.recordingConsent == req.recordingConsent
      && (Truthy(req.attendeePhone) ==> record.attendeePhone == req.attendeePhone)
      && (!Truthy(req.attendeePhone) ==> record.attendeePhone == Null)
      && record.durationMinutes.Missing? && record.zoomMeetingId.Missing? && record.zoomJoinUrl.Missing?
    ensures ValidateBookingRequest(env, req).isValid && insert.InsertFailed? ==>
      run.result == Failed(DatabaseErrorPrefix + insert.message, []) && |run.trace| == 1
    ensures forall i :: 0 <= i < |run.trace| && run.trace[i].CreateCalendarEvent? ==>
      i == 1 && insert.Inserted? && run.trace[i].booking == insert.row
    ensures forall i :: 0 <= i < |run.trace| && run.trace[i].SetGoogleEventId? ==>
      i == 2 && insert.Inserted? && event.EventCreated? &&
      run.trace[i] == SetGoogleEventId(insert.row.id, event.eventId)
    ensures ValidateBookingRequest(env, req).isValid && insert.Inserted? ==>
      |run.trace| >= 2 && run.trace[1] == CreateCalendarEvent(insert.row)
    ensures ValidateBookingRequest(env, req).isValid && insert.Inserted? && event.EventFailed? ==>
      run.result == Failed(CalendarErrorPrefix + event.message, []) && |run.trace| == 2 && run.trace[0].InsertBooking?
    ensures ValidateBookingRequest(env, req).isValid && insert.Inserted? && event.EventCreated? ==>
      |run.trace| == 3 && run.trace[2] == SetGoogleEventId(insert.row.id, event.eventId)
    ensures ValidateBookingRequest(env, req).isValid && insert.Inserted? && event.EventCreated? && update.UpdateFailed? ==>
      run.result == Failed(CalendarErrorPrefix + update.message, []) && run.trace[0].InsertBooking?
    ensures run.result.Succeeded? ==>
      run.result.booking == insert.row.(googleEventId := Some(event.eventId)) && |run.trace| == 3
  {
    var v := ValidateBookingRequest(env, req);
    if !v.isValid then Run(Failed(ValidationFailed, v.errors), [])
    else
      var insertCall := InsertBooking(InsertRecord(req));
      match insert
      case InsertFailed(message) => Run(Failed(DatabaseErrorPrefix + message, []), [insertCall])
      case Inserted(row) =>
        var eventCall := CreateCalendarEvent(row);
        match event
        case EventFailed(message) => Run(Failed(CalendarErrorPrefix + message, []), [insertCall, eventCall])
        case EventCreated(eventId) =>
          var trace := [insertCall, eventCall, SetGoogleEventId(row.id, eventId)];
          match update
          case UpdateFailed(message) => Run(Failed(CalendarErrorPrefix + message, []), trace)
          case Updated => Run(Succeeded(row.(googleEventId := Some(eventId))), trace)
  }

  /** A calendar failure after a successful insert leaves a stored, confirmed row behind
      while the caller is told the booking failed. */
  lemma CalendarFailureOrphansRow(env: ValidationEnv, req: BookingRequest, row: Booking, message: string,
                                  update: UpdateOutcome)
    requires ValidateBookingRequest(env, req).isValid
    ensures var run := CreateBooking(env, req, Inserted(row), EventFailed(message), update);
      run.result.Failed? && InsertBooking(InsertRecord(req)) in run.trace &&
      InsertRecord(req).status == Confirmed
  {
  }
}
