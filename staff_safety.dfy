/** The staff and safety form (src/utils/validateStaffSafetyForm.js): three
    groups, each switched on by its own flag, each with a count and a list of
    locations. */
module StaffSafetyValidation {
  import opened JsValues
  import opened FormErrors

  datatype StaffSafetyForm = StaffSafetyForm(
    securityStaffAvailable: JVal, totalStaffCount: JVal, deploymentZones: JVal,
    firstAidAvailable: JVal, numberOfStations: JVal, firstAidLocations: JVal,
    emergencyExitsMarked: JVal, numberOfEmergencyExits: JVal, emergencyExitLocations: JVal)

  datatype StaffSafetyField =
    | TotalStaffCount | DeploymentZones
    | NumberOfStations | FirstAidLocations
    | NumberOfEmergencyExits | EmergencyExitLocations

  type StaffSafetyErrorMap = ErrorMap<StaffSafetyField>

  const StaffCountInvalid := "Please enter a valid total staff count."
  const DeploymentZonesRequired := "Please select at least one deployment zone."
  const StationsInvalid := "Please enter a valid number of first aid stations."
  const FirstAidLocationsRequired := "Please select at least one first aid location."
  const ExitsInvalid := "Please enter a valid number of emergency exits."
  const ExitLocationsRequired := "Please select at least one exit location."

  /** The only keys the validator writes. */
  const StaffSafetyKeys: set<FieldPath<StaffSafetyField>> := {
    Field(TotalStaffCount), Field(DeploymentZones), Field(NumberOfStations),
    Field(FirstAidLocations), Field(NumberOfEmergencyExits), Field(EmergencyExitLocations)
  }

  /** One group block in the errors object `e`: when `flag` is truthy, the
      count is checked with `!x || x < 1` and then the list with
      `!x || x.length === 0`. */
  function GroupErrors(e: StaffSafetyErrorMap, flag: JVal, count: JVal, locations: JVal,
                       countKey: StaffSafetyField, countMsg: string,
                       listKey: StaffSafetyField, listMsg: string): StaffSafetyErrorMap
  {
    Put(Put(e, Truthy(flag) && BadCount(count), Field(countKey), countMsg),
      Truthy(flag) && MissingOrEmpty(locations), Field(listKey), listMsg)
  }

  /** A group block adds its count key exactly when the group is on and the
      count fails, its list key exactly when the group is on and the list is
      missing or empty, and leaves every other key alone. */
  lemma GroupErrorsAt(e: StaffSafetyErrorMap, flag: JVal, count: JVal, locations: JVal,
                      countKey: StaffSafetyField, countMsg: string,
                      listKey: StaffSafetyField, listMsg: string, p: FieldPath<StaffSafetyField>)
    requires countKey != listKey
    ensures var r := GroupErrors(e, flag, count, locations, countKey, countMsg, listKey, listMsg);
      && (p == Field(countKey) ==>
            (p in r <==> (Truthy(flag) && BadCount(count)) || p in e)
            && (Truthy(flag) && BadCount(count) ==> r[p] == countMsg))
      && (p == Field(listKey) ==>
            (p in r <==> (Truthy(flag) && MissingOrEmpty(locations)) || p in e)
            && (Truthy(flag) && MissingOrEmpty(locations) ==> r[p] == listMsg))
      && (p != Field(countKey) && p != Field(listKey) ==>
            (p in r <==> p in e) && (p in e ==> r[p] == e[p]))
  {
  }

  /** The errors object after the three group blocks in turn. */
  function StaffSafetyErrors(d: StaffSafetyForm): StaffSafetyErrorMap {
    var security := GroupErrors(map[], d.securityStaffAvailable, d.totalStaffCount, d.deploymentZones,
      TotalStaffCount, StaffCountInvalid, DeploymentZones, DeploymentZonesRequired);
    var firstAid := GroupErrors(security, d.firstAidAvailable, d.numberOfStations, d.firstAidLocations,
      NumberOfStations, StationsInvalid, FirstAidLocations, FirstAidLocationsRequired);
    GroupErrors(firstAid, d.emergencyExitsMarked, d.numberOfEmergencyExits, d.emergencyExitLocations,
      NumberOfEmergencyExits, ExitsInvalid, EmergencyExitLocations, ExitLocationsRequired)
  }

  /** One group block of `validateStaffSafetyForm`. */
  method CheckGroup(e: StaffSafetyErrorMap, flag: JVal, count: JVal, locations: JVal,
                    countKey: StaffSafetyField, countMsg: string,
                    listKey: StaffSafetyField, listMsg: string) returns (errors: StaffSafetyErrorMap)
    ensures errors == GroupErrors(e, flag, count, locations, countKey, countMsg, listKey, listMsg)
  {
    errors := e;
    if Truthy(flag) {
      if !Truthy(count) || Less(count, Num(1)) {
        errors := errors[Field(countKey) := countMsg];
      }
      ghost var afterCount := errors;
      assert afterCount == Put(e, BadCount(count), Field(countKey), countMsg);
      if !Truthy(locations) || OptProp(locations, "length") == Num(0) {
        errors := errors[Field(listKey) := listMsg];
      }
      assert errors == Put(afterCount, MissingOrEmpty(locations), Field(listKey), listMsg);
    }
  }

  /** `validateStaffSafetyForm`. */
  method ValidateStaffSafetyForm(d: StaffSafetyForm) returns (errors: StaffSafetyErrorMap)
    ensures errors == StaffSafetyErrors(d)
  {
    errors := CheckGroup(map[], d.securityStaffAvailable, d.totalStaffCount, d.deploymentZones,
      TotalStaffCount, StaffCountInvalid, DeploymentZones, DeploymentZonesRequired);
    errors := CheckGroup(errors, d.firstAidAvailable, d.numberOfStations, d.firstAidLocations,
      NumberOfStations, StationsInvalid, FirstAidLocations, FirstAidLocationsRequired);
    errors := CheckGroup(errors, d.emergencyExitsMarked, d.numberOfEmergencyExits, d.emergencyExitLocations,
      NumberOfEmergencyExits, ExitsInvalid, EmergencyExitLocations, ExitLocationsRequired);
  }

  /** The message each key should carry: a group's count and location checks
      apply only when its flag is truthy, and depend on nothing else. */
  function ExpectedError(d: StaffSafetyForm, p: FieldPath<StaffSafetyField>): Option<string> {
    match p
    case Field(TotalStaffCount) =>
      if Truthy(d.securityStaffAvailable) && BadCount(d.totalStaffCount) then Some(StaffCountInvalid) else None
    case Field(DeploymentZones) =>
      if Truthy(d.securityStaffAvailable) && MissingOrEmpty(d.deploymentZones) then Some(DeploymentZonesRequired) else None
    case Field(NumberOfStations) =>
      if Truthy(d.firstAidAvailable) && BadCount(d.numberOfStations) then Some(StationsInvalid) else None
    case Field(FirstAidLocations) =>
      if Truthy(d.firstAidAvailable) && MissingOrEmpty(d.firstAidLocations) then Some(FirstAidLocationsRequired) else None
    case Field(NumberOfEmergencyExits) =>
      if Truthy(d.emergencyExitsMarked) && BadCount(d.numberOfEmergencyExits) then Some(ExitsInvalid) else None
    case Field(EmergencyExitLocations) =>
      if Truthy(d.emergencyExitsMarked) && MissingOrEmpty(d.emergencyExitLocations) then Some(ExitLocationsRequired) else None
    case _ => None
  }

  /** Every key of the error map, and only those, carries the expected
      message. */
  lemma StaffSafetyErrorsAt(d: StaffSafetyForm, p: FieldPath<StaffSafetyField>)
    ensures p in StaffSafetyErrors(d) <==> ExpectedError(d, p).Some?
    ensures p in StaffSafetyErrors(d) ==> StaffSafetyErrors(d)[p] == ExpectedError(d, p).value
  {
    var security := GroupErrors(map[], d.securityStaffAvailable, d.totalStaffCount, d.deploymentZones,
      TotalStaffCount, StaffCountInvalid, DeploymentZones, DeploymentZonesRequired);
    var firstAid := GroupErrors(security, d.firstAidAvailable, d.numberOfStations, d.firstAidLocations,
      NumberOfStations, StationsInvalid, FirstAidLocations, FirstAidLocationsRequired);
    GroupErrorsAt(map[], d.securityStaffAvailable, d.totalStaffCount, d.deploymentZones,
      TotalStaffCount, StaffCountInvalid, DeploymentZones, DeploymentZonesRequired, p);
    GroupErrorsAt(security, d.firstAidAvailable, d.numberOfStations, d.firstAidLocations,
      NumberOfStations, StationsInvalid, FirstAidLocations, FirstAidLocationsRequired, p);
    GroupErrorsAt(firstAid, d.emergencyExitsMarked, d.numberOfEmergencyExits, d.emergencyExitLocations,
      NumberOfEmergencyExits, ExitsInvalid, EmergencyExitLocations, ExitLocationsRequired, p);
    match p
    case Field(f) => {
      match f
      case TotalStaffCount =>
      case DeploymentZones =>
      case NumberOfStations =>
      case FirstAidLocations =>
      case NumberOfEmergencyExits =>
      case EmergencyExitLocations =>
    }
    case _ =>
  }

  /** At most the six fixed keys. */
  lemma StaffSafetyKeysBounded(d: StaffSafetyForm)
    ensures StaffSafetyErrors(d).Keys <= StaffSafetyKeys
    ensures |StaffSafetyErrors(d)| <= 6
  {
    forall p | p in StaffSafetyErrors(d) ensures p in StaffSafetyKeys {
      StaffSafetyErrorsAt(d, p);
    }
    assert |StaffSafetyKeys| == 6;
    assert |StaffSafetyErrors(d).Keys| <= |StaffSafetyKeys| by {
      SubsetCardinality(StaffSafetyErrors(d).Keys, StaffSafetyKeys);
    }
  }

  /** A group whose flag is falsy contributes neither of its keys, whatever
      its fields hold. */
  lemma FalsyFlagsSilenceGroups(d: StaffSafetyForm)
    ensures !Truthy(d.securityStaffAvailable) ==>
      Field(TotalStaffCount) !in StaffSafetyErrors(d) && Field(DeploymentZones) !in StaffSafetyErrors(d)
    ensures !Truthy(d.firstAidAvailable) ==>
      Field(NumberOfStations) !in StaffSafetyErrors(d) && Field(FirstAidLocations) !in StaffSafetyErrors(d)
    ensures !Truthy(d.emergencyExitsMarked) ==>
      Field(NumberOfEmergencyExits) !in StaffSafetyErrors(d) && Field(EmergencyExitLocations) !in StaffSafetyErrors(d)
  {
    StaffSafetyErrorsAt(d, Field(TotalStaffCount));
    StaffSafetyErrorsAt(d, Field(DeploymentZones));
    StaffSafetyErrorsAt(d, Field(NumberOfStations));
    StaffSafetyErrorsAt(d, Field(FirstAidLocations));
    StaffSafetyErrorsAt(d, Field(NumberOfEmergencyExits));
    StaffSafetyErrorsAt(d, Field(EmergencyExitLocations));
  }

  /** The groups are independent: on its own two keys, the error map is
      what that group's block writes into an empty object, which reads only
      the group's flag, count and list. */
  lemma GroupsIndependent(d: StaffSafetyForm, p: FieldPath<StaffSafetyField>)
    ensures p == Field(TotalStaffCount) || p == Field(DeploymentZones) ==>
      var g := GroupErrors(map[], d.securityStaffAvailable, d.totalStaffCount, d.deploymentZones,
        TotalStaffCount, StaffCountInvalid, DeploymentZones, DeploymentZonesRequired);
      (p in StaffSafetyErrors(d) <==> p in g) && (p in g ==> StaffSafetyErrors(d)[p] == g[p])
    ensures p == Field(NumberOfStations) || p == Field(FirstAidLocations) ==>
      var g := GroupErrors(map[], d.firstAidAvailable, d.numberOfStations, d.firstAidLocations,
        NumberOfStations, StationsInvalid, FirstAidLocations, FirstAidLocationsRequired);
      (p in StaffSafetyErrors(d) <==> p in g) && (p in g ==> StaffSafetyErrors(d)[p] == g[p])
    ensures p == Field(NumberOfEmergencyExits) || p == Field(EmergencyExitLocations) ==>
      var g := GroupErrors(map[], d.emergencyExitsMarked, d.numberOfEmergencyExits, d.emergencyExitLocations,
        NumberOfEmergencyExits, ExitsInvalid, EmergencyExitLocations, ExitLocationsRequired);
      (p in StaffSafetyErrors(d) <==> p in g) && (p in g ==> StaffSafetyErrors(d)[p] == g[p])
  {
    StaffSafetyErrorsAt(d, p);
    GroupErrorsAt(map[], d.securityStaffAvailable, d.totalStaffCount, d.deploymentZones,
      TotalStaffCount, StaffCountInvalid, DeploymentZones, DeploymentZonesRequired, p);
    GroupErrorsAt(map[], d.firstAidAvailable, d.numberOfStations, d.firstAidLocations,
      NumberOfStations, StationsInvalid, FirstAidLocations, FirstAidLocationsRequired, p);
    GroupErrorsAt(map[], d.emergencyExitsMarked, d.numberOfEmergencyExits, d.emergencyExitLocations,
      NumberOfEmergencyExits, ExitsInvalid, EmergencyExitLocations, ExitLocationsRequired, p);
  }

  /** In each group that is on, a location array passes exactly when it is
      non-empty; what its entries are is never looked at. */
  lemma LocationsOnlyNeedEntries(d: StaffSafetyForm)
    ensures Truthy(d.securityStaffAvailable) && d.deploymentZones.Arr? ==>
      (Field(DeploymentZones) in StaffSafetyErrors(d) <==> d.deploymentZones.items == [])
    ensures Truthy(d.firstAidAvailable) && d.firstAidLocations.Arr? ==>
      (Field(FirstAidLocations) in StaffSafetyErrors(d) <==> d.firstAidLocations.items == [])
    ensures Truthy(d.emergencyExitsMarked) && d.emergencyExitLocations.Arr? ==>
      (Field(EmergencyExitLocations) in StaffSafetyErrors(d) <==> d.emergencyExitLocations.items == [])
  {
    StaffSafetyErrorsAt(d, Field(DeploymentZones));
    StaffSafetyErrorsAt(d, Field(FirstAidLocations));
    StaffSafetyErrorsAt(d, Field(EmergencyExitLocations));
  }

  /** `isStaffSafetyFormComplete`: no key in the error map. */
  predicate IsStaffSafetyFormComplete(d: StaffSafetyForm) {
    |StaffSafetyErrors(d)| == 0
  }

  /** A group passes when it is off, or its count is at least 1 and its list
      is non-empty. */
  predicate GroupOk(flag: JVal, count: JVal, locations: JVal) {
    !Truthy(flag) || (!BadCount(count) && !MissingOrEmpty(locations))
  }

  /** Complete exactly when every group passes. */
  lemma CompleteIffGroupsOk(d: StaffSafetyForm)
    ensures IsStaffSafetyFormComplete(d) <==>
      && GroupOk(d.securityStaffAvailable, d.totalStaffCount, d.deploymentZones)
      && GroupOk(d.firstAidAvailable, d.numberOfStations, d.firstAidLocations)
      && GroupOk(d.emergencyExitsMarked, d.numberOfEmergencyExits, d.emergencyExitLocations)
  {
    forall p {
      StaffSafetyErrorsAt(d, p);
    }
    if !IsStaffSafetyFormComplete(d) {
      var p :| p in StaffSafetyErrors(d);
    }
  }
}
