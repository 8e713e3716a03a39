/** The basic event form (src/utils/validateBasicEventForm.js): a validator
    that writes one error per failed check, and a completeness predicate that
    was written separately and leaves out the date-ordering check. */
module BasicEventValidation {
  import opened JsValues
  import opened FormErrors

  /** The form record as the validator reads it; an absent property is
      `Undef`. */
  datatype BasicEventForm = BasicEventForm(
    eventName: JVal, eventType: JVal, customEventType: JVal, startDate: JVal,
    endDate: JVal, venue: JVal, estimatedAttendance: JVal)

  /** The keys the validator writes. */
  datatype BasicEventField =
    EventName | EventType | CustomEventType | StartDate | EndDate | Venue | EstimatedAttendance

  type BasicEventErrorMap = ErrorMap<BasicEventField>

  const EventNameRequired := "Event name is required"
  const EventTypeRequired := "Event type is required"
  const CustomEventTypeRequired := "Please specify custom event type"
  const StartDateRequired := "Start date is required"
  const EndDateRequired := "End date is required"
  const EndBeforeStart := "End date must be after start date"
  const VenueRequired := "Venue is required"
  const AttendanceRequired := "Estimated attendance is required"

  /** `eventType === "Other"` with no custom type. */
  predicate CustomTypeMissing(d: BasicEventForm) {
    d.eventType == Str("Other") && !Truthy(d.customEventType)
  }

  /** `startDate && endDate && startDate > endDate`. */
  predicate Misordered(d: BasicEventForm) {
    Truthy(d.startDate) && Truthy(d.endDate) && Greater(d.startDate, d.endDate)
  }

  /** The errors object after each write in turn. Both end-date writes go
      to the same key, but they are exclusive: the first needs a falsy end
      date, the second a truthy one. */
  function BasicEventErrors(d: BasicEventForm): BasicEventErrorMap {
    Put(Put(Put(Put(Put(Put(Put(Put(map[],
      !Truthy(d.eventName), Field(EventName), EventNameRequired),
      !Truthy(d.eventType), Field(EventType), EventTypeRequired),
      CustomTypeMissing(d), Field(CustomEventType), CustomEventTypeRequired),
      !Truthy(d.startDate), Field(StartDate), StartDateRequired),
      !Truthy(d.endDate), Field(EndDate), EndDateRequired),
      Misordered(d), Field(EndDate), EndBeforeStart),
      !Truthy(d.venue), Field(Venue), VenueRequired),
      !Truthy(d.estimatedAttendance), Field(EstimatedAttendance), AttendanceRequired)
  }

  /** `validateBasicEventForm`: assigns into a fresh `errors` object. */
  method ValidateBasicEventForm(d: BasicEventForm) returns (errors: BasicEventErrorMap)
    ensures errors == BasicEventErrors(d)
  {
    errors := map[];
    ghost var before := errors;
    if !Truthy(d.eventName) {
      errors := errors[Field(EventName) := EventNameRequired];
    }
    assert errors == Put(before, !Truthy(d.eventName), Field(EventName), EventNameRequired);
    before := errors;
    if !Truthy(d.eventType) {
      errors := errors[Field(EventType) := EventTypeRequired];
    }
    assert errors == Put(before, !Truthy(d.eventType), Field(EventType), EventTypeRequired);
    before := errors;
    if d.eventType == Str("Other") && !Truthy(d.customEventType) {
      errors := errors[Field(CustomEventType) := CustomEventTypeRequired];
    }
    assert errors == Put(before, CustomTypeMissing(d), Field(CustomEventType), CustomEventTypeRequired);
    before := errors;
    if !Truthy(d.startDate) {
      errors := errors[Field(StartDate) := StartDateRequired];
    }
    assert errors == Put(before, !Truthy(d.startDate), Field(StartDate), StartDateRequired);
    before := errors;
    if !Truthy(d.endDate) {
      errors := errors[Field(EndDate) := EndDateRequired];
    }
    assert errors == Put(before, !Truthy(d.endDate), Field(EndDate), EndDateRequired);
    before := errors;
    if Truthy(d.startDate) && Truthy(d.endDate) && Greater(d.startDate, d.endDate) {
      errors := errors[Field(EndDate) := EndBeforeStart];
    }
    assert errors == Put(before, Misordered(d), Field(EndDate), EndBeforeStart);
    before := errors;
    if !Truthy(d.venue) {
      errors := errors[Field(Venue) := VenueRequired];
    }
    assert errors == Put(before, !Truthy(d.venue), Field(Venue), VenueRequired);
    before := errors;
    if !Truthy(d.estimatedAttendance) {
      errors := errors[Field(EstimatedAttendance) := AttendanceRequired];
    }
    assert errors == Put(before, !Truthy(d.estimatedAttendance), Field(EstimatedAttendance), AttendanceRequired);
  }

  /** The message each key should carry, field by field: each required field
      that is falsy has its own message, the custom type is required only for
      "Other", and the end date carries at most one of its two messages. */
  function ExpectedError(d: BasicEventForm, p: FieldPath<BasicEventField>): Option<string> {
    match p
    case Field(EventName) => if !Truthy(d.eventName) then Some(EventNameRequired) else None
    case Field(EventType) => if !Truthy(d.eventType) then Some(EventTypeRequired) else None
    case Field(CustomEventType) => if CustomTypeMissing(d) then Some(CustomEventTypeRequired) else None
    case Field(StartDate) => if !Truthy(d.startDate) then Some(StartDateRequired) else None
    case Field(EndDate) =>
      if Misordered(d) then Some(EndBeforeStart)
      else if !Truthy(d.endDate) then Some(EndDateRequired)
      else None
    case Field(Venue) => if !Truthy(d.venue) then Some(VenueRequired) else None
    case Field(EstimatedAttendance) => if !Truthy(d.estimatedAttendance) then Some(AttendanceRequired) else None
    case _ => None
  }

  /** Every key of the error map, and only those, carries the expected
      message; no indexed key ever occurs. */
  lemma BasicEventErrorsAt(d: BasicEventForm, p: FieldPath<BasicEventField>)
    ensures p in BasicEventErrors(d) <==> ExpectedError(d, p).Some?
    ensures p in BasicEventErrors(d) ==> BasicEventErrors(d)[p] == ExpectedError(d, p).value
  {
    match p
    case Field(EventName) =>
    case Field(EventType) =>
    case Field(CustomEventType) =>
    case Field(StartDate) =>
    case Field(EndDate) =>
    case Field(Venue) =>
    case Field(EstimatedAttendance) =>
    case _ =>
  }

  /** `isBasicEventFormComplete`: every presence check, but no ordering check. */
  predicate IsBasicEventFormComplete(d: BasicEventForm) {
    !(|| !Truthy(d.eventName)
      || !Truthy(d.eventType)
      || CustomTypeMissing(d)
      || !Truthy(d.startDate)
      || !Truthy(d.endDate)
      || !Truthy(d.venue)
      || !Truthy(d.estimatedAttendance))
  }

  /** The two end-date checks never both fire: misordered dates need a
      truthy end date, so the key carries the ordering message exactly when
      the dates are misordered and "End date is required" exactly when the
      end date is falsy. */
  lemma EndDateChecksExclusive(d: BasicEventForm)
    ensures Misordered(d) ==> Truthy(d.endDate)
    ensures Field(EndDate) in BasicEventErrors(d) <==> Misordered(d) || !Truthy(d.endDate)
    ensures Misordered(d) ==> BasicEventErrors(d)[Field(EndDate)] == EndBeforeStart
    ensures !Truthy(d.endDate) ==> BasicEventErrors(d)[Field(EndDate)] == EndDateRequired
  {
    BasicEventErrorsAt(d, Field(EndDate));
  }

  /** Equal start and end dates raise no `endDate` error. */
  lemma EqualDatesAccepted(d: BasicEventForm)
    requires Truthy(d.startDate) && d.startDate == d.endDate
    ensures Field(EndDate) !in BasicEventErrors(d)
  {
    LessIrreflexive(d.startDate);
    BasicEventErrorsAt(d, Field(EndDate));
  }

  /** Between two non-empty date strings, `endDate` is flagged exactly when
      the end sorts before the start, and then with the ordering message. */
  lemma EndBeforeStartFlagged(d: BasicEventForm, start: string, end: string)
    requires d.startDate == Str(start) && d.endDate == Str(end)
    requires start != "" && end != ""
    ensures Field(EndDate) in BasicEventErrors(d) <==> StrLess(end, start)
    ensures StrLess(end, start) ==> BasicEventErrors(d)[Field(EndDate)] == EndBeforeStart
  {
    BasicEventErrorsAt(d, Field(EndDate));
  }

  /** Attendance is only checked for presence: the string "0" passes. */
  lemma ZeroAttendanceStringAccepted(d: BasicEventForm)
    requires d.estimatedAttendance == Str("0")
    ensures Field(EstimatedAttendance) !in BasicEventErrors(d)
  {
    BasicEventErrorsAt(d, Field(EstimatedAttendance));
  }

  /** An empty error map means the form is complete. */
  lemma NoErrorsMeansComplete(d: BasicEventForm)
    requires BasicEventErrors(d) == map[]
    ensures IsBasicEventFormComplete(d)
  {
    BasicEventErrorsAt(d, Field(EventName));
    BasicEventErrorsAt(d, Field(EventType));
    BasicEventErrorsAt(d, Field(CustomEventType));
    BasicEventErrorsAt(d, Field(StartDate));
    BasicEventErrorsAt(d, Field(EndDate));
    BasicEventErrorsAt(d, Field(Venue));
    BasicEventErrorsAt(d, Field(EstimatedAttendance));
  }

  /** The converse fails exactly for misordered dates: a complete form then
      carries the single ordering error. */
  lemma CompleteWithErrorsIffMisordered(d: BasicEventForm)
    requires IsBasicEventFormComplete(d)
    ensures BasicEventErrors(d) != map[] <==> Misordered(d)
    ensures Misordered(d) ==> BasicEventErrors(d) == map[Field(EndDate) := EndBeforeStart]
  {
    forall p {
      BasicEventErrorsAt(d, p);
    }
    if Misordered(d) {
      assert Field(EndDate) in BasicEventErrors(d);
    }
  }

  /** A form whose only faults are event type "Other" without a custom type
      and an end before the start gets exactly those two errors, the second
      with the ordering message, and is not complete. */
  lemma OtherTypeAndMisorderedScenario(d: BasicEventForm)
    requires Truthy(d.eventName) && CustomTypeMissing(d) && Misordered(d)
    requires Truthy(d.venue) && Truthy(d.estimatedAttendance)
    ensures BasicEventErrors(d) == map[Field(CustomEventType) := CustomEventTypeRequired,
                                       Field(EndDate) := EndBeforeStart]
    ensures !IsBasicEventFormComplete(d)
  {
    var want := map[Field(CustomEventType) := CustomEventTypeRequired, Field(EndDate) := EndBeforeStart];
    forall p
      ensures p in BasicEventErrors(d) <==> p in want
      ensures p in want ==> BasicEventErrors(d)[p] == want[p]
    {
      BasicEventErrorsAt(d, p);
    }
  }
}
