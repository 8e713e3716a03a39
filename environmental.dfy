/** The environmental and external factors form
    (src/utils/validateEnvironmentalForm.js): a required weather choice, a
    `nearbyEvents` answer that must be a boolean, and the details of a
    nearby event when the answer is truthy. */
module EnvironmentalValidation {
  import opened JsValues
  import opened FormErrors

  /** The form record; `specialNotes` is free text the validator never
      reads. */
  datatype EnvironmentalForm = EnvironmentalForm(
    weather: JVal, nearbyEvents: JVal, eventName: JVal, eventLocation: JVal,
    eventStart: JVal, eventEnd: JVal, expectedAttendance: JVal, specialNotes: JVal)

  datatype EnvironmentalField =
    | Weather | NearbyEvents | EventName | EventLocation | EventStart | EventEnd | ExpectedAttendance

  type EnvironmentalErrorMap = ErrorMap<EnvironmentalField>

  const WeatherRequired := "Please select the weather forecast/consideration."
  const NearbyEventsRequired := "Please indicate if there are nearby events."
  const EventNameRequired := "Event name is required."
  const EventLocationRequired := "Event location is required."
  const EventStartRequired := "Event start date and time is required."
  const EventEndRequired := "Event end date and time is required."
  const EventEndBeforeStart := "Event end cannot be before start time."
  const AttendanceInvalid := "Expected attendance must be greater than 0."

  /** `!v || v.trim() === ""`: a truthy value that is not a string has no
      `trim` method, so calling it throws. */
  function Blank(v: JVal): Outcome<bool> {
    if !Truthy(v) then Ok(true)
    else if v.Str? then Ok(Trim(v.s) == "")
    else TypeError
  }

  /** A blank value is a missing one or a string of white space only. */
  lemma BlankIff(v: JVal)
    requires Blank(v).Ok?
    ensures Blank(v).value <==> !Truthy(v) || forall i | 0 <= i < |v.s| :: WhiteSpace(v.s[i])
  {
    if Truthy(v) {
      TrimEmptyIff(v.s);
    }
  }

  /** `eventStart && eventEnd < eventStart`, reached only for a truthy
      `eventEnd`. */
  predicate EndBeforeStart(d: EnvironmentalForm) {
    Truthy(d.eventEnd) && Truthy(d.eventStart) && Less(d.eventEnd, d.eventStart)
  }

  /** The weather and `nearbyEvents` checks, which always run. */
  function TopLevelErrors(d: EnvironmentalForm): EnvironmentalErrorMap {
    Put(Put(map[],
      !Truthy(d.weather), Field(Weather), WeatherRequired),
      !d.nearbyEvents.Bool?, Field(NearbyEvents), NearbyEventsRequired)
  }

  /** The nearby event block, run when `nearbyEvents` is truthy. */
  function EventErrors(e: EnvironmentalErrorMap, d: EnvironmentalForm): Outcome<EnvironmentalErrorMap> {
    match (Blank(d.eventName), Blank(d.eventLocation))
    case (TypeError, _) => TypeError
    case (Ok(_), TypeError) => TypeError
    case (Ok(nameBlank), Ok(locationBlank)) =>
      Ok(Put(Put(Put(Put(Put(Put(e,
        nameBlank, Field(EventName), EventNameRequired),
        locationBlank, Field(EventLocation), EventLocationRequired),
        !Truthy(d.eventStart), Field(EventStart), EventStartRequired),
        !Truthy(d.eventEnd), Field(EventEnd), EventEndRequired),
        EndBeforeStart(d), Field(EventEnd), EventEndBeforeStart),
        NotPositive(d.expectedAttendance), Field(ExpectedAttendance), AttendanceInvalid))
  }

  function EnvironmentalErrors(d: EnvironmentalForm): Outcome<EnvironmentalErrorMap> {
    var e := TopLevelErrors(d);
    if Truthy(d.nearbyEvents) then EventErrors(e, d) else Ok(e)
  }

  method CheckNearbyEvent(e: EnvironmentalErrorMap, d: EnvironmentalForm) returns (r: Outcome<EnvironmentalErrorMap>)
    ensures r == EventErrors(e, d)
  {
    var errors := e;
    var nameBlank := Blank(d.eventName);
    if nameBlank.TypeError? {
      return TypeError;
    }
    if nameBlank.value {
      errors := errors[Field(EventName) := EventNameRequired];
    }
    var locationBlank := Blank(d.eventLocation);
    if locationBlank.TypeError? {
      return TypeError;
    }
    if locationBlank.value {
      errors := errors[Field(EventLocation) := EventLocationRequired];
    }
    if !Truthy(d.eventStart) {
      errors := errors[Field(EventStart) := EventStartRequired];
    }
    if !Truthy(d.eventEnd) {
      errors := errors[Field(EventEnd) := EventEndRequired];
    } else if Truthy(d.eventStart) && Less(d.eventEnd, d.eventStart) {
      errors := errors[Field(EventEnd) := EventEndBeforeStart];
    }
    if !Truthy(d.expectedAttendance) || LessEq(d.expectedAttendance, Num(0)) {
      errors := errors[Field(ExpectedAttendance) := AttendanceInvalid];
    }
    r := Ok(errors);
  }

  /** `validateEnvironmentalForm`. */
  method ValidateEnvironmentalForm(d: EnvironmentalForm) returns (r: Outcome<EnvironmentalErrorMap>)
    ensures r == EnvironmentalErrors(d)
  {
    var errors: EnvironmentalErrorMap := map[];
    if !Truthy(d.weather) {
      errors := errors[Field(Weather) := WeatherRequired];
    }
    if !d.nearbyEvents.Bool? {
      errors := errors[Field(NearbyEvents) := NearbyEventsRequired];
    }
    if Truthy(d.nearbyEvents) {
      r := CheckNearbyEvent(errors, d);
    } else {
      r := Ok(errors);
    }
  }

  /** `isEnvironmentalFormComplete`: the validator returned no key. */
  function IsEnvironmentalFormComplete(d: EnvironmentalForm): Outcome<bool> {
    match EnvironmentalErrors(d)
    case TypeError => TypeError
    case Ok(e) => Ok(|e| == 0)
  }

  // ------------------------------------------------------------ properties

  /** The validator throws exactly when `nearbyEvents` is truthy and the
      event name or location is truthy but not a string. */
  lemma EnvironmentalThrowsIff(d: EnvironmentalForm)
    ensures EnvironmentalErrors(d).TypeError? <==>
      Truthy(d.nearbyEvents) &&
      ((Truthy(d.eventName) && !d.eventName.Str?) || (Truthy(d.eventLocation) && !d.eventLocation.Str?))
  {
  }

  /** The nearby event block leaves the weather and `nearbyEvents` keys
      as they were. */
  lemma EventBlockKeepsTopLevel(e: EnvironmentalErrorMap, d: EnvironmentalForm, f: EnvironmentalField)
    requires EventErrors(e, d).Ok? && (f == Weather || f == NearbyEvents)
    ensures Field(f) in EventErrors(e, d).value <==> Field(f) in e
    ensures Field(f) in e ==> EventErrors(e, d).value[Field(f)] == e[Field(f)]
  {
  }

  /** Weather and `nearbyEvents` keys: a falsy weather, and a
      `nearbyEvents` that is not a boolean, `undefined` included. */
  lemma TopLevelKeysAt(d: EnvironmentalForm)
    requires EnvironmentalErrors(d).Ok?
    ensures var r := EnvironmentalErrors(d).value;
      && (Field(Weather) in r <==> !Truthy(d.weather))
      && (Field(Weather) in r ==> r[Field(Weather)] == WeatherRequired)
      && (Field(NearbyEvents) in r <==> !d.nearbyEvents.Bool?)
      && (Field(NearbyEvents) in r ==> r[Field(NearbyEvents)] == NearbyEventsRequired)
  {
    var e := TopLevelErrors(d);
    if Truthy(d.nearbyEvents) {
      EventBlockKeepsTopLevel(e, d, Weather);
      EventBlockKeepsTopLevel(e, d, NearbyEvents);
    }
  }

  /** A literal `false` gives neither the `nearbyEvents` key nor any
      nested key: at most the weather key remains. */
  lemma NoNearbyEventsOnlyWeather(d: EnvironmentalForm)
    requires d.nearbyEvents == Bool(false)
    ensures EnvironmentalErrors(d) == Ok(if Truthy(d.weather) then map[] else map[Field(Weather) := WeatherRequired])
  {
  }

  /** An unanswered `nearbyEvents` gives its own key and no nested key. */
  lemma UnansweredNearbyEvents(d: EnvironmentalForm)
    requires d.nearbyEvents == Undef
    ensures EnvironmentalErrors(d).Ok?
    ensures Field(NearbyEvents) in EnvironmentalErrors(d).value
    ensures EnvironmentalErrors(d).value.Keys <= {Field(Weather), Field(NearbyEvents)}
  {
  }

  /** The keys the nearby event block writes into any map. */
  lemma EventBlockKeys(e: EnvironmentalErrorMap, d: EnvironmentalForm)
    requires EventErrors(e, d).Ok?
    ensures var r := EventErrors(e, d).value;
      && (Field(EventName) in r <==> Field(EventName) in e || Blank(d.eventName) == Ok(true))
      && (Field(EventLocation) in r <==> Field(EventLocation) in e || Blank(d.eventLocation) == Ok(true))
      && (Field(EventStart) in r <==> Field(EventStart) in e || !Truthy(d.eventStart))
      && (Field(EventEnd) in r <==> Field(EventEnd) in e || !Truthy(d.eventEnd) || EndBeforeStart(d))
      && (Field(ExpectedAttendance) in r <==> Field(ExpectedAttendance) in e || NotPositive(d.expectedAttendance))
  {
  }

  /** The messages the nearby event block writes. */
  lemma EventBlockMessages(e: EnvironmentalErrorMap, d: EnvironmentalForm)
    requires EventErrors(e, d).Ok?
    ensures var r := EventErrors(e, d).value;
      && (Blank(d.eventName) == Ok(true) ==> Field(EventName) in r && r[Field(EventName)] == EventNameRequired)
      && (Blank(d.eventLocation) == Ok(true) ==>
            Field(EventLocation) in r && r[Field(EventLocation)] == EventLocationRequired)
      && (!Truthy(d.eventStart) ==> Field(EventStart) in r && r[Field(EventStart)] == EventStartRequired)
      && (!Truthy(d.eventEnd) ==> Field(EventEnd) in r && r[Field(EventEnd)] == EventEndRequired)
      && (EndBeforeStart(d) ==> Field(EventEnd) in r && r[Field(EventEnd)] == EventEndBeforeStart)
      && (NotPositive(d.expectedAttendance) ==>
            Field(ExpectedAttendance) in r && r[Field(ExpectedAttendance)] == AttendanceInvalid)
  {
  }

  /** The keys of the nearby event block, when it runs. */
  lemma EventKeysAt(d: EnvironmentalForm)
    requires EnvironmentalErrors(d).Ok? && Truthy(d.nearbyEvents)
    ensures var r := EnvironmentalErrors(d).value;
      && (Field(EventName) in r <==> Blank(d.eventName) == Ok(true))
      && (Field(EventLocation) in r <==> Blank(d.eventLocation) == Ok(true))
      && (Field(EventStart) in r <==> !Truthy(d.eventStart))
      && (Field(EventEnd) in r <==> !Truthy(d.eventEnd) || EndBeforeStart(d))
      && (Field(ExpectedAttendance) in r <==> NotPositive(d.expectedAttendance))
    ensures var r := EnvironmentalErrors(d).value;
      && (Field(EventName) in r ==> r[Field(EventName)] == EventNameRequired)
      && (Field(EventLocation) in r ==> r[Field(EventLocation)] == EventLocationRequired)
      && (Field(EventStart) in r ==> r[Field(EventStart)] == EventStartRequired)
      && (!Truthy(d.eventEnd) ==> r[Field(EventEnd)] == EventEndRequired)
      && (EndBeforeStart(d) ==> r[Field(EventEnd)] == EventEndBeforeStart)
      && (Field(ExpectedAttendance) in r ==> r[Field(ExpectedAttendance)] == AttendanceInvalid)
  {
    var e := TopLevelErrors(d);
    assert e.Keys <= {Field(Weather), Field(NearbyEvents)};
    EventBlockKeys(e, d);
    EventBlockMessages(e, d);
  }

  /** Without the nearby event block the event keys are absent. */
  lemma EventKeysNeedNearbyEvents(d: EnvironmentalForm, f: EnvironmentalField)
    requires !Truthy(d.nearbyEvents) && f != Weather && f != NearbyEvents
    ensures EnvironmentalErrors(d).Ok? && Field(f) !in EnvironmentalErrors(d).value
  {
  }

  /** A name or location of white space only is flagged like a missing
      one. */
  lemma WhiteSpaceNameFlagged(d: EnvironmentalForm)
    requires EnvironmentalErrors(d).Ok? && Truthy(d.nearbyEvents) && d.eventName.Str?
    ensures Field(EventName) in EnvironmentalErrors(d).value <==>
      forall i | 0 <= i < |d.eventName.s| :: WhiteSpace(d.eventName.s[i])
  {
    EventKeysAt(d);
    BlankIff(d.eventName);
  }

  lemma WhiteSpaceLocationFlagged(d: EnvironmentalForm)
    requires EnvironmentalErrors(d).Ok? && Truthy(d.nearbyEvents) && d.eventLocation.Str?
    ensures Field(EventLocation) in EnvironmentalErrors(d).value <==>
      forall i | 0 <= i < |d.eventLocation.s| :: WhiteSpace(d.eventLocation.s[i])
  {
    EventKeysAt(d);
    BlankIff(d.eventLocation);
  }

  /** Equal start and end strings pass the ordering check. */
  lemma EqualEventTimesAccepted(d: EnvironmentalForm)
    requires EnvironmentalErrors(d).Ok? && Truthy(d.nearbyEvents)
    requires Truthy(d.eventEnd) && d.eventEnd == d.eventStart
    ensures Field(EventEnd) !in EnvironmentalErrors(d).value
  {
    LessIrreflexive(d.eventEnd);
    EventKeysAt(d);
  }

  /** Between two date strings, the end is flagged exactly when it comes
      first in string order. */
  lemma EventTimesCompareAsStrings(d: EnvironmentalForm, start: string, end: string)
    requires EnvironmentalErrors(d).Ok? && Truthy(d.nearbyEvents)
    requires d.eventStart == Str(start) && d.eventEnd == Str(end) && start != "" && end != ""
    ensures Field(EventEnd) in EnvironmentalErrors(d).value <==> StrLess(end, start)
  {
    EventKeysAt(d);
  }

  /** `specialNotes` has no effect on the result. */
  lemma SpecialNotesIgnored(d: EnvironmentalForm, notes: JVal)
    ensures EnvironmentalErrors(d.(specialNotes := notes)) == EnvironmentalErrors(d)
  {
  }

  /** A truthy answer that is not a boolean, such as "yes", gives the
      `nearbyEvents` key and still runs the nested checks. */
  lemma TruthyNonBooleanAnswer(d: EnvironmentalForm)
    requires EnvironmentalErrors(d).Ok? && Truthy(d.nearbyEvents) && !d.nearbyEvents.Bool?
    ensures Field(NearbyEvents) in EnvironmentalErrors(d).value
    ensures Field(EventStart) in EnvironmentalErrors(d).value <==> !Truthy(d.eventStart)
    ensures Field(ExpectedAttendance) in EnvironmentalErrors(d).value <==> NotPositive(d.expectedAttendance)
  {
    TopLevelKeysAt(d);
    EventKeysAt(d);
  }

  /** Complete exactly when the validator returns an empty map. */
  lemma CompleteIffNoErrors(d: EnvironmentalForm)
    ensures IsEnvironmentalFormComplete(d) == Ok(true) <==> EnvironmentalErrors(d) == Ok(map[])
  {
    if EnvironmentalErrors(d).Ok? && |EnvironmentalErrors(d).value| == 0 {
      assert EnvironmentalErrors(d).value == map[];
    }
  }
}
