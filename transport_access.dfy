/** The transport and access form (src/utils/validateTransportAccessForm.js):
    a public transport group whose schedule times must match `HH:MM`, and a
    parking group of three counts. */
module TransportAccessValidation {
  import opened JsValues
  import opened FormErrors

  datatype TransportForm = TransportForm(
    publicTransportAvailable: JVal, transportModes: JVal, transportSchedules: JVal,
    transportCapacityPerTrip: JVal,
    parkingAvailable: JVal, parkingCapacity: JVal, entryLanes: JVal, exitLanes: JVal)

  datatype TransportField =
    | TransportModes | TransportSchedules | TransportCapacityPerTrip
    | ParkingCapacity | EntryLanes | ExitLanes

  type TransportErrorMap = ErrorMap<TransportField>

  const ModesRequired := "Please select at least one transport mode"
  const SchedulesRequired := "Please add at least one schedule time"
  const TimeInvalid := "Invalid time format (HH:MM)"
  const CapacityPerTripInvalid := "Capacity per trip must be a positive number"
  const ParkingCapacityInvalid := "Please enter a valid parking capacity"
  const EntryLanesInvalid := "Please enter a valid number of entry lanes"
  const ExitLanesInvalid := "Please enter a valid number of exit lanes"

  // ------------------------------------------------------------ time format

  /** `/^([01]\d|2[0-3]):([0-5]\d)$/.test(s)`: the whole string is an hour
      00-23, a colon and a minute 00-59, each written with two ASCII
      digits. */
  predicate IsTime(s: string) {
    && |s| == 5
    && ((s[0] in "01" && IsDigit(s[1])) || (s[0] == '2' && '0' <= s[1] <= '3'))
    && s[2] == ':'
    && '0' <= s[3] <= '5' && IsDigit(s[4])
  }

  /** `n` written with exactly two digits. */
  function TwoDigits(n: nat): string
    requires n < 100
  {
    [DigitChar(n / 10), DigitChar(n % 10)]
  }

  function DigitValue(c: char): nat
    requires IsDigit(c)
  {
    c as int - '0' as int
  }

  /** The digit characters, read back as numbers. */
  lemma DigitCharValue(d: nat)
    requires d < 10
    ensures IsDigit(DigitChar(d)) && DigitValue(DigitChar(d)) == d
  {
    assert "0123456789"[d] as int == '0' as int + d by {
      if d < 5 {
        assert d == 0 || d == 1 || d == 2 || d == 3 || d == 4;
      } else {
        assert d == 5 || d == 6 || d == 7 || d == 8 || d == 9;
      }
    }
  }

  lemma ValueDigitChar(c: char)
    requires IsDigit(c)
    ensures DigitValue(c) < 10 && DigitChar(DigitValue(c)) == c
  {
    DigitCharValue(DigitValue(c));
  }

  /** A string the pattern accepts is a two-digit hour and minute. */
  lemma IsTimeWritten(s: string)
    requires IsTime(s)
    ensures exists h: nat, m: nat | h < 24 && m < 60 :: s == TwoDigits(h) + ":" + TwoDigits(m)
  {
    ValueDigitChar(s[0]);
    ValueDigitChar(s[1]);
    ValueDigitChar(s[3]);
    ValueDigitChar(s[4]);
    var h := 10 * DigitValue(s[0]) + DigitValue(s[1]);
    var m := 10 * DigitValue(s[3]) + DigitValue(s[4]);
    assert h / 10 == DigitValue(s[0]) && h % 10 == DigitValue(s[1]);
    assert m / 10 == DigitValue(s[3]) && m % 10 == DigitValue(s[4]);
    assert s == TwoDigits(h) + ":" + TwoDigits(m);
  }

  /** A two-digit hour and minute is accepted by the pattern. */
  lemma WrittenIsTime(h: nat, m: nat)
    requires h < 24 && m < 60
    ensures IsTime(TwoDigits(h) + ":" + TwoDigits(m))
  {
    var s := TwoDigits(h) + ":" + TwoDigits(m);
    DigitCharValue(h / 10);
    DigitCharValue(h % 10);
    DigitCharValue(m / 10);
    DigitCharValue(m % 10);
    assert s[0] == DigitChar(h / 10) && s[1] == DigitChar(h % 10);
    assert s[3] == DigitChar(m / 10) && s[4] == DigitChar(m % 10);
  }

  /** The pattern accepts exactly the times written as two-digit hour
      and minute. */
  lemma IsTimeIff(s: string)
    ensures IsTime(s) <==> exists h: nat, m: nat | h < 24 && m < 60 :: s == TwoDigits(h) + ":" + TwoDigits(m)
  {
    if IsTime(s) {
      IsTimeWritten(s);
    }
    if exists h: nat, m: nat | h < 24 && m < 60 :: s == TwoDigits(h) + ":" + TwoDigits(m) {
      var h: nat, m: nat :| h < 24 && m < 60 && s == TwoDigits(h) + ":" + TwoDigits(m);
      WrittenIsTime(h, m);
    }
  }

  /** "08:00" passes; "25:61", "8:00" and "" do not. */
  lemma TimeExamples()
    ensures IsTime("08:00") && !IsTime("25:61") && !IsTime("8:00") && !IsTime("")
  {
  }

  // ------------------------------------------------------------ validator

  /** One visit of the schedules loop: `test` converts its argument to a
      string, so a time is judged by `String(time)`. `!time` is tested
      first and nothing is read of the entry, so no visit throws. */
  function ScheduleEntry(time: JVal, idx: nat): TransportErrorMap {
    Put(map[], !Truthy(time) || !IsTime(ToStr(time)), Item(TransportSchedules, idx), TimeInvalid)
  }


  lemma ScheduleEntryKeyed()
    ensures KeysUnder(ScheduleEntry, TransportSchedules)
  {
  }

  /** `transportCapacityPerTrip && transportCapacityPerTrip < 1`. */
  predicate BadCapacityPerTrip(v: JVal) {
    Truthy(v) && Less(v, Num(1))
  }

  /** The public transport block: modes, then schedules, then capacity. */
  function PublicErrors(e: TransportErrorMap, d: TransportForm): Outcome<TransportErrorMap> {
    if !Truthy(d.publicTransportAvailable) then Ok(e)
    else
      var e1 := Put(e, MissingOrEmpty(d.transportModes), Field(TransportModes), ModesRequired);
      match ListBlock(e1, true, d.transportSchedules, TransportSchedules, SchedulesRequired, NeverThrows, ScheduleEntry)
      case TypeError => TypeError
      case Ok(e2) =>
        Ok(Put(e2, BadCapacityPerTrip(d.transportCapacityPerTrip), Field(TransportCapacityPerTrip),
          CapacityPerTripInvalid))
  }

  /** The parking block. */
  function ParkingErrors(e: TransportErrorMap, d: TransportForm): TransportErrorMap {
    if !Truthy(d.parkingAvailable) then e
    else
      Put(Put(Put(e,
        BadCount(d.parkingCapacity), Field(ParkingCapacity), ParkingCapacityInvalid),
        BadCount(d.entryLanes), Field(EntryLanes), EntryLanesInvalid),
        BadCount(d.exitLanes), Field(ExitLanes), ExitLanesInvalid)
  }

  function TransportErrors(d: TransportForm): Outcome<TransportErrorMap> {
    match PublicErrors(map[], d)
    case TypeError => TypeError
    case Ok(e) => Ok(ParkingErrors(e, d))
  }

  method CheckPublicTransport(e: TransportErrorMap, d: TransportForm) returns (r: Outcome<TransportErrorMap>)
    ensures r == PublicErrors(e, d)
  {
    if !Truthy(d.publicTransportAvailable) {
      return Ok(e);
    }
    var errors := e;
    if !Truthy(d.transportModes) || OptProp(d.transportModes, "length") == Num(0) {
      errors := errors[Field(TransportModes) := ModesRequired];
    }
    r := CheckList(errors, true, d.transportSchedules, TransportSchedules, SchedulesRequired,
      NeverThrows, ScheduleEntry);
    if r.TypeError? {
      return;
    }
    errors := r.value;
    if Truthy(d.transportCapacityPerTrip) && Less(d.transportCapacityPerTrip, Num(1)) {
      errors := errors[Field(TransportCapacityPerTrip) := CapacityPerTripInvalid];
    }
    r := Ok(errors);
  }

  method CheckParking(e: TransportErrorMap, d: TransportForm) returns (errors: TransportErrorMap)
    ensures errors == ParkingErrors(e, d)
  {
    errors := e;
    if Truthy(d.parkingAvailable) {
      if !Truthy(d.parkingCapacity) || Less(d.parkingCapacity, Num(1)) {
        errors := errors[Field(ParkingCapacity) := ParkingCapacityInvalid];
      }
      if !Truthy(d.entryLanes) || Less(d.entryLanes, Num(1)) {
        errors := errors[Field(EntryLanes) := EntryLanesInvalid];
      }
      if !Truthy(d.exitLanes) || Less(d.exitLanes, Num(1)) {
        errors := errors[Field(ExitLanes) := ExitLanesInvalid];
      }
    }
  }

  /** `validateTransportAccessForm`. */
  method ValidateTransportAccessForm(d: TransportForm) returns (r: Outcome<TransportErrorMap>)
    ensures r == TransportErrors(d)
  {
    r := CheckPublicTransport(map[], d);
    if r.Ok? {
      var errors := CheckParking(r.value, d);
      r := Ok(errors);
    }
  }

  /** `isTransportAccessFormComplete`: the validator returned no key. */
  function IsTransportAccessFormComplete(d: TransportForm): Outcome<bool> {
    match TransportErrors(d)
    case TypeError => TypeError
    case Ok(e) => Ok(|e| == 0)
  }

  // ------------------------------------------------------------ properties

  /** The validator throws exactly when public transport is on and the
      schedules are present, non-empty and not an array. */
  lemma TransportThrowsIff(d: TransportForm)
    ensures TransportErrors(d).TypeError? <==>
      Truthy(d.publicTransportAvailable) && !MissingOrEmpty(d.transportSchedules) && !d.transportSchedules.Arr?
  {
  }

  /** Public transport's own field keys, and the parking keys. */
  lemma FieldKeysAt(d: TransportForm)
    requires TransportErrors(d).Ok?
    ensures Field(TransportModes) in TransportErrors(d).value <==>
      Truthy(d.publicTransportAvailable) && MissingOrEmpty(d.transportModes)
    ensures Field(TransportSchedules) in TransportErrors(d).value <==>
      Truthy(d.publicTransportAvailable) && MissingOrEmpty(d.transportSchedules)
    ensures Field(TransportCapacityPerTrip) in TransportErrors(d).value <==>
      Truthy(d.publicTransportAvailable) && BadCapacityPerTrip(d.transportCapacityPerTrip)
    ensures Field(ParkingCapacity) in TransportErrors(d).value <==>
      Truthy(d.parkingAvailable) && BadCount(d.parkingCapacity)
    ensures Field(EntryLanes) in TransportErrors(d).value <==>
      Truthy(d.parkingAvailable) && BadCount(d.entryLanes)
    ensures Field(ExitLanes) in TransportErrors(d).value <==>
      Truthy(d.parkingAvailable) && BadCount(d.exitLanes)
    ensures var r := TransportErrors(d).value;
      && (Field(TransportModes) in r ==> r[Field(TransportModes)] == ModesRequired)
      && (Field(TransportSchedules) in r ==> r[Field(TransportSchedules)] == SchedulesRequired)
      && (Field(TransportCapacityPerTrip) in r ==> r[Field(TransportCapacityPerTrip)] == CapacityPerTripInvalid)
      && (Field(ParkingCapacity) in r ==> r[Field(ParkingCapacity)] == ParkingCapacityInvalid)
      && (Field(EntryLanes) in r ==> r[Field(EntryLanes)] == EntryLanesInvalid)
      && (Field(ExitLanes) in r ==> r[Field(ExitLanes)] == ExitLanesInvalid)
  {
    ScheduleEntryKeyed();
    if Truthy(d.publicTransportAvailable) {
      var e1 := Put(map[], MissingOrEmpty(d.transportModes), Field(TransportModes), ModesRequired);
      ListBlockOther(e1, true, d.transportSchedules, TransportSchedules, SchedulesRequired, NeverThrows,
        ScheduleEntry, TransportSchedules, Field(TransportModes));
      ListBlockOwnKey(e1, true, d.transportSchedules, TransportSchedules, SchedulesRequired, NeverThrows,
        ScheduleEntry, TransportSchedules);
      ListBlockOther(e1, true, d.transportSchedules, TransportSchedules, SchedulesRequired, NeverThrows,
        ScheduleEntry, TransportSchedules, Field(TransportCapacityPerTrip));
      ListBlockOther(e1, true, d.transportSchedules, TransportSchedules, SchedulesRequired, NeverThrows,
        ScheduleEntry, TransportSchedules, Field(ParkingCapacity));
      ListBlockOther(e1, true, d.transportSchedules, TransportSchedules, SchedulesRequired, NeverThrows,
        ScheduleEntry, TransportSchedules, Field(EntryLanes));
      ListBlockOther(e1, true, d.transportSchedules, TransportSchedules, SchedulesRequired, NeverThrows,
        ScheduleEntry, TransportSchedules, Field(ExitLanes));
    }
  }

  /** The parking block writes no indexed key. */
  lemma ParkingKeepsItems(e: TransportErrorMap, d: TransportForm, p: FieldPath<TransportField>)
    requires !p.Field?
    ensures p in ParkingErrors(e, d) <==> p in e
    ensures p in e ==> ParkingErrors(e, d)[p] == e[p]
  {
  }

  /** The only indexed keys are `transportSchedules.idx`, written exactly
      for an existing entry that is falsy or whose string form is not a
      time. */
  lemma ScheduleKeyAt(d: TransportForm, p: FieldPath<TransportField>)
    requires TransportErrors(d).Ok? && !p.Field?
    ensures p in TransportErrors(d).value <==>
      && p.Item? && p.list == TransportSchedules
      && Truthy(d.publicTransportAvailable) && !MissingOrEmpty(d.transportSchedules)
      && p.index < |d.transportSchedules.items|
      && (!Truthy(d.transportSchedules.items[p.index]) || !IsTime(ToStr(d.transportSchedules.items[p.index])))
    ensures p in TransportErrors(d).value ==> TransportErrors(d).value[p] == TimeInvalid
  {
    ScheduleEntryKeyed();
    var e := PublicErrors(map[], d).value;
    ParkingKeepsItems(e, d, p);
    if Truthy(d.publicTransportAvailable) {
      var e1 := Put(map[], MissingOrEmpty(d.transportModes), Field(TransportModes), ModesRequired);
      var v := d.transportSchedules;
      assert p !in e1;
      var e2 := ListBlock(e1, true, v, TransportSchedules, SchedulesRequired, NeverThrows, ScheduleEntry).value;
      PutOther(e2, BadCapacityPerTrip(d.transportCapacityPerTrip), Field(TransportCapacityPerTrip),
        CapacityPerTripInvalid, p);
      if p.list == TransportSchedules {
        ListBlockItems(e1, true, v, TransportSchedules, SchedulesRequired, NeverThrows, ScheduleEntry,
          TransportSchedules, p);
      } else {
        ListBlockOther(e1, true, v, TransportSchedules, SchedulesRequired, NeverThrows, ScheduleEntry,
          TransportSchedules, p);
      }
    }
  }

  /** Missing or empty schedules give the schedules key and no indexed
      key. */
  lemma EmptySchedules(d: TransportForm)
    requires TransportErrors(d).Ok? && Truthy(d.publicTransportAvailable) && MissingOrEmpty(d.transportSchedules)
    ensures Field(TransportSchedules) in TransportErrors(d).value
    ensures forall p: FieldPath<TransportField> | !p.Field? :: p !in TransportErrors(d).value
  {
    FieldKeysAt(d);
    forall p: FieldPath<TransportField> | !p.Field?
      ensures p !in TransportErrors(d).value
    {
      ScheduleKeyAt(d, p);
    }
  }

  /** Capacity per trip is checked only when truthy: 0, "" and a missing
      value pass, and so does any number of at least 1; a negative number is
      flagged when public transport is on. */
  lemma CapacityPerTripOnlyWhenTruthy(d: TransportForm)
    requires TransportErrors(d).Ok?
    ensures (d.transportCapacityPerTrip == Num(0) || d.transportCapacityPerTrip == Str("")
             || d.transportCapacityPerTrip == Undef) ==>
      Field(TransportCapacityPerTrip) !in TransportErrors(d).value
    ensures d.transportCapacityPerTrip.Num? && d.transportCapacityPerTrip.n >= 1 ==>
      Field(TransportCapacityPerTrip) !in TransportErrors(d).value
    ensures Truthy(d.publicTransportAvailable) && d.transportCapacityPerTrip.Num? && d.transportCapacityPerTrip.n < 0 ==>
      Field(TransportCapacityPerTrip) in TransportErrors(d).value
  {
    FieldKeysAt(d);
  }

  /** With both groups off the error map is empty. */
  lemma BothGroupsOff(d: TransportForm)
    requires !Truthy(d.publicTransportAvailable) && !Truthy(d.parkingAvailable)
    ensures TransportErrors(d) == Ok(map[])
  {
  }

  /** A schedule entry that is an array holding one valid time string
      passes, since `test` reads it through `String`. */
  lemma ArrayScheduleAccepted(idx: nat)
    ensures ScheduleEntry(Arr([Str("08:00")]), idx) == map[]
  {
    assert ToStr(Arr([Str("08:00")])) == "08:00";
  }

  /** Public transport on with modes `["Bus"]`, schedules
      `["08:00", "25:61"]` and a capacity per trip of 0, parking off: the
      only key is `transportSchedules.1`; a capacity of 0 is falsy and so
      is not checked. */
  lemma SchedulesScenario(d: TransportForm)
    requires d.publicTransportAvailable == Bool(true) && d.transportModes == Arr([Str("Bus")])
    requires d.transportSchedules == Arr([Str("08:00"), Str("25:61")])
    requires d.transportCapacityPerTrip == Num(0) && !Truthy(d.parkingAvailable)
    ensures TransportErrors(d) == Ok(map[Item(TransportSchedules, 1) := TimeInvalid])
  {
    var items := [Str("08:00"), Str("25:61")];
    assert IsTime("08:00") && !IsTime("25:61");
    assert ScheduleEntry(items[0], 0) == map[];
    assert ScheduleEntry(items[1], 1) == map[Item(TransportSchedules, 1) := TimeInvalid];
    assert IndexedErrors(items, 1, ScheduleEntry) == map[] + ScheduleEntry(items[0], 0);
    assert IndexedErrors(items, 2, ScheduleEntry) == IndexedErrors(items, 1, ScheduleEntry) + ScheduleEntry(items[1], 1);
    var written := map[Item(TransportSchedules, 1) := TimeInvalid];
    assert IndexedErrors(items, 2, ScheduleEntry) == written;
    assert OptProp(d.transportModes, "length") == Num(1);
    assert OptProp(d.transportSchedules, "length") == Num(2);
    var e1 := Put(map[], MissingOrEmpty(d.transportModes), Field(TransportModes), ModesRequired);
    assert e1 == map[];
    assert ForEachErrors(e1, d.transportSchedules, NeverThrows, ScheduleEntry) == Ok(e1 + written);
    assert ListBlock(e1, true, d.transportSchedules, TransportSchedules, SchedulesRequired, NeverThrows, ScheduleEntry)
      == Ok(written);
    assert !BadCapacityPerTrip(d.transportCapacityPerTrip);
    assert PublicErrors(map[], d) == Ok(written);
  }

  /** Complete exactly when the validator returns an empty map. */
  lemma CompleteIffNoErrors(d: TransportForm)
    ensures IsTransportAccessFormComplete(d) == Ok(true) <==> TransportErrors(d) == Ok(map[])
  {
    if TransportErrors(d).Ok? && |TransportErrors(d).value| == 0 {
      assert TransportErrors(d).value == map[];
    }
  }
}
