# Event-safety form wizard: validation rules, file selection, option toggle, shared form state

This project models the logic core of a browser form wizard for event-safety planning.
The user fills in six forms in turn: basic event, venue details, facilities and attractions,
transport and access, staff and safety, and environmental factors.
Each form has a validator and a completeness test.
The validator maps field paths such as `gates.0.capacity` to messages.
The completeness test decides whether the user may move on.
The project also models the file upload page's selection rules, the multi-select dropdown's
option toggle, and the shared per-section form state.

The validators read loosely typed JavaScript data, so `js_values.dfy` models the values they see.
- `JVal` has the cases `undefined`, `null`, booleans, integers, strings, arrays and plain objects.
- Truthiness, `?.`, and property access model JavaScript's, including the throw on
  `undefined` or `null`.
- Relational comparison follows the Abstract Relational Comparison of ECMAScript (section 7.2.13
  of ECMA-262). Two strings compare by code unit. Any other pair compares as numbers, and a NaN
  makes both `<` and `>=` false.
- `String(v)`, `trim()` and `Number(s)` are modelled to the extent the validators need them.

`form_errors.dfy` holds the shared shapes:
- the error map keyed by a `FieldPath` (a field, a list item, or a field of a list item);
- the conditional write `Put`;
- the "missing or empty list, otherwise visit every item" block, with its `forEach` loop as a
  method;
- `every`.

Each validator is a `method` that does the work the way the code does. It writes into an error
map one check at a time, with an early `TypeError` result where the JavaScript throws. Each method
is proved equal to a specification function built from one block function per source block. The
lemmas about the specification functions state, key by key, when a key occurs and which message it
carries. Further lemmas cover what the gates silence, how completeness relates to the error map,
and the edge cases (boundaries, string ordering, white space, exemptions).

Some behaviour of the code differs from what its design intends. The model follows the code.
- The validators can throw. The model returns `TypeError` for these cases, and each form has a
  lemma stating exactly when it throws:
  - In the environmental form, a truthy event name or location that is not a string makes
    `trim()` throw.
  - In the venue and transport forms, a list that is checked, present and non-empty but not an
    array makes `forEach` throw. A falsy value, or one whose `length` is 0, gets the "at least
    one" key instead.
  - In the facilities form, `?.forEach` throws on any attraction locations value that is neither
    nullish nor an array.
  - A `null` or `undefined` item in a checked venue list throws when its visit reads a property.
  - The staff-safety and basic-event validators never throw, since they never iterate a list.
  - The venue completeness test can throw as well: on nullish sections under a Standard layout
    (it reads `sections.length` unguarded), on a non-array with a positive `length` such as a
    string (it calls `every`), and on a nullish item.
- `isBasicEventFormComplete` re-checks the required fields itself and skips the date-ordering
  check. A form whose end date comes before its start date is "complete" while the validator
  still reports the ordering error (`BasicEventValidation.CompleteWithErrorsIffMisordered`).
- In the transport form, the capacity per trip is checked only when it is truthy, so a capacity
  of 0 passes (`TransportAccessValidation.SchedulesScenario`).
- `isVenueFormComplete` is a separate rule set. It implies an empty error map, but the converse
  fails. For example, each of these gives no error and is still incomplete:
  - a layout other than "Standard" or "Custom";
  - a capacity such as "abc", for which both `<= 0` and `> 0` are false;
  - a truthy non-array `connectedSections`, whose `length` is `undefined`.
- The venue page stores the layout as `layoutType`, but the validator and the completeness test
  read `HeaderLayoutType`. So on a form built by that page, the Next button's completeness test
  (src/pages/VenueDetailsForm.jsx:221) always fails, and the validator called from `handleNext`
  (line 105) always writes the layout error (`PageLayoutNeverRead`).
- The page never sets `hasVIPZones` or `hasRestrictedAreas`. So on a form it builds, VIP zones
  and restricted areas are never checked, and none of their keys occurs
  (`PageListsNeverChecked`). The page also stores a zone's gates as `gates`, where the validator
  reads `entryExitGates`. So if the VIP flag were set, every page-built zone would get the gates
  error (`PageVipZoneAlwaysFlagged`).
- Schedule times are tested with `timeRegex.test(time)`, which converts its argument to a string.
  An array holding one valid time string therefore passes.

## Model

| member | source | states |
|---|---|---|
| JsValues.OptProp | src/utils/validateVenueDetailsForm.js:16 | `v?.k` is `undefined` on a nullish value and the plain property read otherwise |
| JsValues.TrimEmptyIff | src/utils/validateEnvironmentalForm.js:15 | `trim()` gives the empty string exactly when every character is white space |
| JsValues.LessIrreflexive | src/utils/validateBasicEventForm.js:12 | no value is less than itself, so equal dates never trigger an ordering error |
| JsValues.StrLessTrichotomy | src/utils/validateBasicEventForm.js:12 | two different strings are ordered one way or the other, never both |
| JsValues.PositiveIsTruthy | src/utils/validateVenueDetailsForm.js:5 | a value that passes `x > 0` is truthy and fails `x <= 0`, so the completeness test's capacity rule implies the validator's |
| FormErrors.ForEachCheck | src/utils/validateVenueDetailsForm.js:49-52 | the `forEach` loop adds exactly the union of its visits' writes, and throws when the list is not an array or some item throws |
| FormErrors.CheckList | src/utils/validateVenueDetailsForm.js:45-53 | a list block writes its own key for a missing or empty list and otherwise runs the visit loop |
| FormErrors.IndexedErrorsAt | src/utils/validateVenueDetailsForm.js:49-52 | a key of the loop's union occurs exactly when the visit at its own index wrote it, with that visit's message |
| FormErrors.IndexedErrorsEmpty | src/utils/validateVenueDetailsForm.js:49-52 | the loop writes nothing exactly when no visit writes anything |
| FormErrors.ListBlockThrows | src/utils/validateVenueDetailsForm.js:45-53 | a list block throws exactly when it is on, the list is present and non-empty, and either it is not an array or an item throws |
| FormErrors.ListBlockOwnKey | src/utils/validateVenueDetailsForm.js:46-47 | the list key is written exactly when the block is on and the list is missing or empty |
| FormErrors.ListBlockItems | src/utils/validateVenueDetailsForm.js:49-52 | each indexed key under the list occurs exactly when the visit of its item wrote it |
| FormErrors.ListBlockOther | src/utils/validateVenueDetailsForm.js:45-53 | every key outside the block passes through unchanged |
| FormErrors.ListBlockSilent | src/utils/validateVenueDetailsForm.js:45-53 | a block that is off, or whose non-empty array has only silent items, leaves the map as it was |
| FormErrors.EveryIff | src/utils/validateVenueDetailsForm.js:5 | `every` is true exactly when the predicate holds of each item |
| FormErrors.ListCompleteSilent | src/utils/validateVenueDetailsForm.js:3-17 | a list the completeness test accepts makes its validator block write nothing |
| BasicEventValidation.ValidateBasicEventForm | src/utils/validateBasicEventForm.js:3-18 | the validator's eight writes, in order, give the specification map |
| BasicEventValidation.EndDateChecksExclusive | src/utils/validateBasicEventForm.js:11-13 | the two end-date writes are exclusive: the key carries the ordering message exactly for misordered dates and "End date is required" exactly for a falsy end date |
| BasicEventValidation.BasicEventErrorsAt | src/utils/validateBasicEventForm.js:6-15 | each key occurs exactly when its check fails, with that check's message, and no other key occurs |
| BasicEventValidation.EqualDatesAccepted | src/utils/validateBasicEventForm.js:12-13 | equal non-empty dates give no end-date error |
| BasicEventValidation.EndBeforeStartFlagged | src/utils/validateBasicEventForm.js:11-13 | for two date strings the end-date key occurs exactly when the end comes first in string order |
| BasicEventValidation.ZeroAttendanceStringAccepted | src/utils/validateBasicEventForm.js:15 | the string "0" is truthy, so it counts as an attendance |
| BasicEventValidation.NoErrorsMeansComplete | src/utils/validateBasicEventForm.js:21-34 | an empty error map implies the completeness test passes |
| BasicEventValidation.CompleteWithErrorsIffMisordered | src/utils/validateBasicEventForm.js:21-34 | a complete form has errors exactly when its dates are misordered, and then only the end-date ordering error |
| BasicEventValidation.OtherTypeAndMisorderedScenario | src/utils/validateBasicEventForm.js:6-15 | type "Other" with no custom type and misordered dates gives exactly the custom-type and end-date errors, and the form is incomplete |
| StaffSafetyValidation.GroupErrorsAt | src/utils/validateStaffSafetyForm.js:5-12 | a group writes its count key when on and the count fails, its list key when on and the list is missing or empty, and nothing else |
| StaffSafetyValidation.CheckGroup | src/utils/validateStaffSafetyForm.js:5-12 | one group block of the validator gives the group's specification map |
| StaffSafetyValidation.ValidateStaffSafetyForm | src/utils/validateStaffSafetyForm.js:1-35 | the three group blocks in order give the specification map |
| StaffSafetyValidation.StaffSafetyErrorsAt | src/utils/validateStaffSafetyForm.js:5-32 | each of the six keys occurs exactly when its group is on and its check fails, with its message, and no other key occurs |
| StaffSafetyValidation.StaffSafetyKeysBounded | src/utils/validateStaffSafetyForm.js:1-35 | the map holds at most the six fixed keys |
| StaffSafetyValidation.FalsyFlagsSilenceGroups | src/utils/validateStaffSafetyForm.js:5-32 | a group whose flag is falsy contributes neither of its keys, whatever its fields hold |
| StaffSafetyValidation.GroupsIndependent | src/utils/validateStaffSafetyForm.js:5-32 | on a group's keys the map equals what that group alone writes into an empty map |
| StaffSafetyValidation.LocationsOnlyNeedEntries | src/utils/validateStaffSafetyForm.js:5-32 | in each of the three groups that is on, a location array passes exactly when it is non-empty, whatever its entries |
| StaffSafetyValidation.CompleteIffGroupsOk | src/utils/validateStaffSafetyForm.js:37-40 | the form is complete exactly when every group is off or has a count of at least 1 and a non-empty list |
| VenueDetailsValidation.ValidateVenueForm | src/utils/validateVenueDetailsForm.js:36-101 | the validator's blocks in order give the specification result, including its throws |
| VenueDetailsValidation.VenueThrowsIff | src/utils/validateVenueDetailsForm.js:36-101 | the validator throws exactly when some active list block meets a present non-empty non-array or a nullish item |
| VenueDetailsValidation.HeaderKeyAt | src/utils/validateVenueDetailsForm.js:40-42 | the layout key occurs exactly when the layout is falsy |
| VenueDetailsValidation.SectionsKeyAt | src/utils/validateVenueDetailsForm.js:45-47 | the sections key occurs exactly for a Standard layout with missing or empty sections |
| VenueDetailsValidation.CustomFileKeyAt | src/utils/validateVenueDetailsForm.js:56-58 | the custom-file key occurs exactly for a Custom layout without a file |
| VenueDetailsValidation.GatesKeyAt | src/utils/validateVenueDetailsForm.js:61-62 | the gates key occurs exactly when the gates are missing or empty |
| VenueDetailsValidation.VipZonesKeyAt | src/utils/validateVenueDetailsForm.js:75-77 | the VIP zones key occurs exactly when VIP zones are on and the list is missing or empty |
| VenueDetailsValidation.RestrictedAreasKeyAt | src/utils/validateVenueDetailsForm.js:89-91 | the restricted areas key occurs exactly when restricted areas are on and the list is missing or empty |
| VenueDetailsValidation.SectionEntryKeyed | src/utils/validateVenueDetailsForm.js:50-51 | a section visit writes only `sections.i.*` keys for its own index |
| VenueDetailsValidation.GateEntryKeyed | src/utils/validateVenueDetailsForm.js:65-70 | a gate visit writes only `gates.i.*` keys for its own index |
| VenueDetailsValidation.VipZoneEntryKeyed | src/utils/validateVenueDetailsForm.js:80-83 | a VIP zone visit writes only `vipZones.i.*` keys for its own index |
| VenueDetailsValidation.RestrictedAreaEntryKeyed | src/utils/validateVenueDetailsForm.js:94-95 | a restricted area visit writes only `restrictedAreas.i.*` keys for its own index |
| VenueDetailsValidation.SectionItemAt | src/utils/validateVenueDetailsForm.js:49-52 | a `sections.i.*` key occurs exactly when the layout is Standard and the visit of section i writes it |
| VenueDetailsValidation.GateItemAt | src/utils/validateVenueDetailsForm.js:64-71 | a `gates.i.*` key occurs exactly when the visit of gate i writes it |
| VenueDetailsValidation.VipZoneItemAt | src/utils/validateVenueDetailsForm.js:79-84 | a `vipZones.i.*` key occurs exactly when VIP zones are on and the visit of zone i writes it |
| VenueDetailsValidation.RestrictedAreaItemAt | src/utils/validateVenueDetailsForm.js:93-96 | a `restrictedAreas.i.*` key occurs exactly when restricted areas are on and the visit of area i writes it |
| VenueDetailsValidation.FalsyLayoutOnlyHeader | src/utils/validateVenueDetailsForm.js:40-58 | a falsy layout gives the layout key and no sections, section or custom-file key |
| VenueDetailsValidation.StandardWithoutSections | src/utils/validateVenueDetailsForm.js:45-47 | Standard with missing or empty sections gives the sections key and no indexed section key |
| VenueDetailsValidation.SectionKeysIff | src/utils/validateVenueDetailsForm.js:49-52 | section i's name key occurs iff its name is falsy, its capacity key iff its capacity is falsy or at most 0, and there is no key past the end |
| VenueDetailsValidation.ServiceDeliveryExempt | src/utils/validateVenueDetailsForm.js:68-70 | gate i's connected-sections key occurs exactly when its type is not "Service/Delivery" and its sections are missing or empty |
| VenueDetailsValidation.NoGatesNotComplete | src/utils/validateVenueDetailsForm.js:11-17 | without gates the gates error is written and the form is never complete |
| VenueDetailsValidation.FalsyFlagsSilenceLists | src/utils/validateVenueDetailsForm.js:75-98 | with a falsy flag neither the list key nor any indexed key of that list occurs |
| VenueDetailsValidation.ZoneWithoutEntryExitGates | src/pages/VenueDetailsForm.jsx:81 | a zone object without `entryExitGates`, as the page builds it, fails both the validator's gates check and the completeness test |
| VenueDetailsValidation.PageVipZoneAlwaysFlagged | src/utils/validateVenueDetailsForm.js:82 | in a form whose `hasVIPZones` is truthy, every such zone gets the gates error |
| VenueDetailsValidation.PageListsNeverChecked | src/utils/validateVenueDetailsForm.js:75-98 | with `hasVIPZones` and `hasRestrictedAreas` absent, as on every page-built form, no VIP zone or restricted area key occurs and both parts count as complete |
| VenueDetailsValidation.PageLayoutNeverRead | src/pages/VenueDetailsForm.jsx:26-33 | a form without `HeaderLayoutType`, as the page builds it, always gets the layout error and is never complete |
| VenueDetailsValidation.PassingItemsSilent | src/utils/validateVenueDetailsForm.js:3-31 | an item the completeness test accepts neither throws nor makes its visit write anything |
| VenueDetailsValidation.CompleteImpliesNoErrors | src/utils/validateVenueDetailsForm.js:1-34 | a complete venue form has an empty error map |
| VenueDetailsValidation.UnknownLayoutErrorFreeButIncomplete | src/utils/validateVenueDetailsForm.js:3-8 | a layout other than Standard or Custom gives no error while the form is incomplete |
| VenueDetailsValidation.NonNumericCapacitySilentButIncomplete | src/utils/validateVenueDetailsForm.js:5 | a named section with capacity "abc" gets no error from its visit (line 51) and fails the section test |
| VenueDetailsValidation.NonArraySectionsSilentButIncomplete | src/utils/validateVenueDetailsForm.js:16 | a complete-looking gate whose `connectedSections` is `true` gets no error from its visit (line 68) and fails the gate test |
| FacilitiesValidation.CheckRestrooms | src/utils/validateFacilitiesAttractionsForm.js:7-14 | the restrooms block gives its specification map |
| FacilitiesValidation.CheckFoodCourts | src/utils/validateFacilitiesAttractionsForm.js:17-27 | the food courts block gives its specification map |
| FacilitiesValidation.CheckSpecialAttractions | src/utils/validateFacilitiesAttractionsForm.js:30-39 | the special attractions block, with its `?.forEach` over the locations, gives its specification result |
| FacilitiesValidation.ValidateFacilitiesForm | src/utils/validateFacilitiesAttractionsForm.js:3-42 | the three blocks in order give the specification result |
| FacilitiesValidation.FacilitiesThrowsIff | src/utils/validateFacilitiesAttractionsForm.js:34 | the validator throws exactly when attractions are on and the locations are present but not an array |
| FacilitiesValidation.RestroomKeysAt | src/utils/validateFacilitiesAttractionsForm.js:7-14 | the restroom keys occur exactly when restrooms are on and the count or the list fails, with their messages |
| FacilitiesValidation.FoodCourtKeysAt | src/utils/validateFacilitiesAttractionsForm.js:17-27 | the three food court keys occur exactly when food courts are on and their checks fail, each with its own message |
| FacilitiesValidation.SpecialAttractionsKeyAt | src/utils/validateFacilitiesAttractionsForm.js:31-33 | the attractions key occurs exactly when attractions are on and the list is missing or empty, with its message |
| FacilitiesValidation.LocationEntryKeyed | src/utils/validateFacilitiesAttractionsForm.js:36 | a location visit writes only `specialAttractionsLocations.idx` for its own index |
| FacilitiesValidation.LocationKeyAt | src/utils/validateFacilitiesAttractionsForm.js:34-38 | the only indexed keys are `specialAttractionsLocations.idx`, written exactly for existing entries that are missing or empty |
| FacilitiesValidation.CountBoundary | src/utils/validateFacilitiesAttractionsForm.js:8 | a count of 1 passes; 0 and a missing count fail |
| FacilitiesValidation.LocationsIgnoreAttractions | src/utils/validateFacilitiesAttractionsForm.js:30-38 | the location keys do not depend on the attractions list: the two arrays are not matched up |
| FacilitiesValidation.CompleteIffNoErrors | src/utils/validateFacilitiesAttractionsForm.js:44-45 | complete exactly when the validator returns an empty map |
| TransportAccessValidation.IsTimeIff | src/utils/validateTransportAccessForm.js:5 | the pattern accepts exactly a two-digit hour 00-23, a colon and a two-digit minute 00-59 |
| TransportAccessValidation.TimeExamples | src/utils/validateTransportAccessForm.js:5 | "08:00" passes; "25:61", "8:00" and "" fail |
| TransportAccessValidation.ScheduleEntryKeyed | src/utils/validateTransportAccessForm.js:18 | a schedule visit writes only `transportSchedules.idx` for its own index |
| TransportAccessValidation.CheckPublicTransport | src/utils/validateTransportAccessForm.js:8-26 | the public transport block gives its specification result |
| TransportAccessValidation.CheckParking | src/utils/validateTransportAccessForm.js:29-39 | the parking block gives its specification map |
| TransportAccessValidation.ValidateTransportAccessForm | src/utils/validateTransportAccessForm.js:1-42 | the two blocks in order give the specification result |
| TransportAccessValidation.TransportThrowsIff | src/utils/validateTransportAccessForm.js:13-20 | the validator throws exactly when public transport is on and the schedules are present, non-empty and not an array |
| TransportAccessValidation.FieldKeysAt | src/utils/validateTransportAccessForm.js:8-39 | each of the six field keys occurs exactly when its gate is on and its check fails, with that check's message |
| TransportAccessValidation.ScheduleKeyAt | src/utils/validateTransportAccessForm.js:16-20 | the indexed keys are exactly the existing schedule entries that are falsy or whose string form is not a time, with the format message |
| TransportAccessValidation.EmptySchedules | src/utils/validateTransportAccessForm.js:13-14 | missing or empty schedules give the schedules key and no indexed key |
| TransportAccessValidation.CapacityPerTripOnlyWhenTruthy | src/utils/validateTransportAccessForm.js:23-25 | a capacity of 0, "" or none is never flagged, nor is any number of at least 1; a negative number is flagged when public transport is on |
| TransportAccessValidation.BothGroupsOff | src/utils/validateTransportAccessForm.js:8-39 | with both gates falsy the map is empty |
| TransportAccessValidation.ArrayScheduleAccepted | src/utils/validateTransportAccessForm.js:17 | an array holding one valid time string passes, because `test` converts its argument to a string |
| TransportAccessValidation.SchedulesScenario | src/utils/validateTransportAccessForm.js:8-26 | with public transport on, modes `["Bus"]`, schedules `["08:00", "25:61"]`, a capacity per trip of 0 and parking off, the only error is `transportSchedules.1` |
| TransportAccessValidation.CompleteIffNoErrors | src/utils/validateTransportAccessForm.js:44-46 | complete exactly when the validator returns an empty map |
| EnvironmentalValidation.BlankIff | src/utils/validateEnvironmentalForm.js:15 | a value is blank exactly when it is falsy or a string of white space only |
| EnvironmentalValidation.CheckNearbyEvent | src/utils/validateEnvironmentalForm.js:14-36 | the nearby event block gives its specification result, throwing where `trim` does |
| EnvironmentalValidation.ValidateEnvironmentalForm | src/utils/validateEnvironmentalForm.js:1-39 | the validator gives the specification result |
| EnvironmentalValidation.EnvironmentalThrowsIff | src/utils/validateEnvironmentalForm.js:15-21 | the validator throws exactly when nearby events are on and the name or location is truthy but not a string |
| EnvironmentalValidation.TopLevelKeysAt | src/utils/validateEnvironmentalForm.js:5-12 | the weather key occurs iff the weather is falsy; the `nearbyEvents` key iff the answer is not a boolean |
| EnvironmentalValidation.NoNearbyEventsOnlyWeather | src/utils/validateEnvironmentalForm.js:10-14 | a literal `false` gives no `nearbyEvents` key and no nested key |
| EnvironmentalValidation.UnansweredNearbyEvents | src/utils/validateEnvironmentalForm.js:10-14 | an unanswered `nearbyEvents` gives its own key and no nested key |
| EnvironmentalValidation.EventBlockKeys | src/utils/validateEnvironmentalForm.js:15-35 | the nearby event block adds each of its keys exactly when its check fails |
| EnvironmentalValidation.EventBlockMessages | src/utils/validateEnvironmentalForm.js:15-35 | each failed check of the block leaves its own message under its key, a misordered end leaving the ordering message |
| EnvironmentalValidation.EventKeysAt | src/utils/validateEnvironmentalForm.js:14-36 | with nearby events on, each event key occurs exactly when its check fails, with its message |
| EnvironmentalValidation.EventKeysNeedNearbyEvents | src/utils/validateEnvironmentalForm.js:14 | with nearby events falsy no event key occurs |
| EnvironmentalValidation.WhiteSpaceNameFlagged | src/utils/validateEnvironmentalForm.js:15-17 | a string name is flagged exactly when all its characters are white space |
| EnvironmentalValidation.WhiteSpaceLocationFlagged | src/utils/validateEnvironmentalForm.js:19-21 | a string location is flagged exactly when all its characters are white space |
| EnvironmentalValidation.EqualEventTimesAccepted | src/utils/validateEnvironmentalForm.js:29-31 | equal start and end give no end error |
| EnvironmentalValidation.EventTimesCompareAsStrings | src/utils/validateEnvironmentalForm.js:27-31 | for two non-empty strings the end key occurs exactly when the end comes first in string order |
| EnvironmentalValidation.SpecialNotesIgnored | src/utils/validateEnvironmentalForm.js:1-39 | `specialNotes` has no effect on the result |
| EnvironmentalValidation.TruthyNonBooleanAnswer | src/utils/validateEnvironmentalForm.js:10-14 | any truthy non-boolean answer gives the `nearbyEvents` key, and the nested checks still run (the start time and attendance keys follow their own checks) |
| EnvironmentalValidation.CompleteIffNoErrors | src/utils/validateEnvironmentalForm.js:41-44 | complete exactly when the validator returns an empty map |
| FileUpload.AcceptFiles | src/pages/FileUpload.jsx:23-39 | the accept loop gives the previous files followed by the accepted selections, at most as many as there is room for |
| FileUpload.AcceptedIff | src/pages/FileUpload.jsx:32-36 | a file is accepted exactly when it was selected and is at most 1 GiB |
| FileUpload.AllFitAccepted | src/pages/FileUpload.jsx:32-36 | when every selection is within the limit, all are accepted in selection order |
| FileUpload.SelectionBounded | src/pages/FileUpload.jsx:28-31 | a selection never takes the list past 5 files, and leaves a full list as it was |
| FileUpload.SelectionKeepsPrefix | src/pages/FileUpload.jsx:25-36 | the previous files stay in front, in order, and every added file was selected and is within the limit |
| FileUpload.PerFileLimit | src/pages/FileUpload.jsx:12 | a file of exactly 1 GiB is accepted; one byte more is refused |
| FileUpload.WithoutIndexDeletes | src/pages/FileUpload.jsx:43-45 | removal deletes exactly the element at the index, keeping the order of the rest; an index outside the list changes nothing |
| FileUpload.SubmitOutcome | src/pages/FileUpload.jsx:47-56 | submit rejects an empty list, then rejects a total above 5 GiB, and accepts otherwise |
| FileUpload.TotalSizeWithout | src/pages/FileUpload.jsx:52 | removing a file takes exactly its size off the total |
| FileUpload.TotalSizeBound | src/pages/FileUpload.jsx:12-13 | n files within the per-file limit total at most n GiB |
| FileUpload.ValidNeverTooLarge | src/pages/FileUpload.jsx:52-53 | a list of at most 5 files within the limit never fails the total size check |
| FileUpload.SelectionKeepsValid | src/pages/FileUpload.jsx:23-39 | selecting files keeps the list within both limits |
| FileUpload.RemovalKeepsValid | src/pages/FileUpload.jsx:43-45 | removing a file keeps the list within both limits |
| FileUpload.ReplayNeverTooLarge | src/pages/FileUpload.jsx:23-53 | every list built from empty by selections and removals is within the limits, so the total size check never fires |
| FileUpload.FileUploadPage.constructor | src/pages/FileUpload.jsx:7 | the page starts with no files |
| FileUpload.FileUploadPage.HandleFileChange | src/pages/FileUpload.jsx:23-41 | the state becomes the selection result and stays within the limits |
| FileUpload.FileUploadPage.RemoveFile | src/pages/FileUpload.jsx:43-45 | the state loses exactly the file at the index and stays within the limits |
| FileUpload.FileUploadPage.HandleSubmit | src/pages/FileUpload.jsx:47-56 | submit gives the outcome of its two checks and never the total size error |
| MultiSelect.RemoveAllAppend | src/components/Dropdown/MultiSelectDropdown.jsx:19 | the filter distributes over concatenation, so the remaining options keep their relative order |
| MultiSelect.RemoveAllCounts | src/components/Dropdown/MultiSelectDropdown.jsx:19 | every occurrence of the option goes and every other option keeps its number of occurrences |
| MultiSelect.RemoveAllAbsent | src/components/Dropdown/MultiSelectDropdown.jsx:19 | filtering out an option that is not there changes nothing |
| MultiSelect.ToggleFlips | src/components/Dropdown/MultiSelectDropdown.jsx:17-23 | the option's membership flips and every other option keeps its membership |
| MultiSelect.ToggleCases | src/components/Dropdown/MultiSelectDropdown.jsx:17-23 | a chosen option is removed everywhere, keeping the others' occurrences; an unchosen one is appended |
| MultiSelect.ToggleTwice | src/components/Dropdown/MultiSelectDropdown.jsx:19-21 | toggling an unchosen option twice restores the list |
| MultiSelect.ToggleTwiceChosen | src/components/Dropdown/MultiSelectDropdown.jsx:17-23 | toggling a chosen option twice moves one copy of it to the end |
| FormContext.InitialFormData | src/context/FormContext.jsx:6-9 | the initial state has exactly the sections `event` and `venueDetails`, both empty |
| FormContext.UpdatedSection | src/context/FormContext.jsx:14 | the updated section holds every key of the data with its new value and every other old key with its old value |
| FormContext.OtherSectionsUnchanged | src/context/FormContext.jsx:13 | every other section is left as it was |
| FormContext.NewSectionIsData | src/context/FormContext.jsx:14 | updating an absent section makes it exactly the data |
| FormContext.UpdateIdempotent | src/context/FormContext.jsx:11-16 | applying the same update twice equals applying it once |

## Left out

- Numbers are integers. Fractional values, `Infinity` and floating-point rounding are not modelled. `Number(s)` trims surrounding white space, so a blank string is 0. It is exact for an optionally signed run of decimal digits, and every other string, after trimming, counts as NaN (fractions, exponents, hexadecimal, `Infinity`).
- Strings are sequences of Dafny characters, not UTF-16 code units. String order is by character, which differs from JavaScript only outside the Basic Multilingual Plane.
- Values are plain data: there are no functions, symbols, `Date` objects, prototypes or objects with their own `toString`. So `trim` on a truthy non-string always throws, and a property read on an object is its own key or `undefined`.
- Sparse arrays, array holes and the insertion order of the error object's keys are not modelled. The error map is a map from field path to message.
- The dotted string form of a field path (`gates.0.capacity`) is kept abstract as the `FieldPath` datatype, one path per string the code builds.
- MultiSelect.Toggle: `includes` uses SameValueZero while `filter` uses `!==`. They differ only on NaN option values, which the generic model does not have.
- FileUpload: a file is reduced to its name and size. `Array.from(e.target.files)`, the `alert` messages, the `e.target.value = ""` reset, `formatSize` (floating point) and the selected category are browser I/O or display and are left out. `setFiles` is modelled as an immediate assignment.
- FormContext: the state is a map from section name to a record. React's state holder and delivery to other components are not modelled. A section whose old value is not an object is not modelled, since the code only ever stores objects.
- All JSX rendering, theme handling, dropdown open and close state and its document listeners, the page-level `setState` handlers, `touched` tracking, and the StaffSafety page's option lists taken from the venue form are UI glue and are not part of this model. Only the state shape of the venue page (its field names, and the flags it never sets) enters, in the lemmas about it.
