/** The facilities and attractions form
    (src/utils/validateFacilitiesAttractionsForm.js): three groups, each
    switched on by its own flag; the last one walks a list of locations. */
module FacilitiesValidation {
  import opened JsValues
  import opened FormErrors

  datatype FacilitiesForm = FacilitiesForm(
    restroomsAvailable: JVal, restroomCount: JVal, restroomLocations: JVal,
    foodCourtsAvailable: JVal, foodCourtCount: JVal, foodCourtCapacity: JVal, foodCourtLocations: JVal,
    specialAttractionsAvailable: JVal, specialAttractions: JVal, specialAttractionsLocations: JVal)

  datatype FacilitiesField =
    | RestroomCount | RestroomLocations
    | FoodCourtCount | FoodCourtCapacity | FoodCourtLocations
    | SpecialAttractions | SpecialAttractionsLocations

  type FacilitiesErrorMap = ErrorMap<FacilitiesField>

  const RestroomCountInvalid := "Please enter a valid number of restrooms"
  const RestroomLocationsRequired := "Please select at least one restroom location"
  const FoodCourtCountInvalid := "Please enter a valid number of food courts"
  const FoodCourtCapacityInvalid := "Please enter a valid capacity per food court"
  const FoodCourtLocationsRequired := "Please select at least one food court location"
  const SpecialAttractionsRequired := "Please select at least one attraction"
  const AttractionLocationRequired := "Please assign a location for this attraction"

  /** The restrooms block. */
  function RestroomErrors(e: FacilitiesErrorMap, d: FacilitiesForm): FacilitiesErrorMap {
    if !Truthy(d.restroomsAvailable) then e
    else
      Put(Put(e,
        BadCount(d.restroomCount), Field(RestroomCount), RestroomCountInvalid),
        MissingOrEmpty(d.restroomLocations), Field(RestroomLocations), RestroomLocationsRequired)
  }

  /** The food courts block. */
  function FoodCourtErrors(e: FacilitiesErrorMap, d: FacilitiesForm): FacilitiesErrorMap {
    if !Truthy(d.foodCourtsAvailable) then e
    else
      Put(Put(Put(e,
        BadCount(d.foodCourtCount), Field(FoodCourtCount), FoodCourtCountInvalid),
        BadCount(d.foodCourtCapacity), Field(FoodCourtCapacity), FoodCourtCapacityInvalid),
        MissingOrEmpty(d.foodCourtLocations), Field(FoodCourtLocations), FoodCourtLocationsRequired)
  }

  /** One visit of the attraction locations loop: an entry that is falsy or
      empty gets `specialAttractionsLocations.idx`. It reads `loc.length`
      only of a truthy entry, so no visit throws. */
  function LocationEntry(loc: JVal, idx: nat): FacilitiesErrorMap {
    Put(map[], MissingOrEmpty(loc), Item(SpecialAttractionsLocations, idx), AttractionLocationRequired)
  }


  lemma LocationEntryKeyed()
    ensures KeysUnder(LocationEntry, SpecialAttractionsLocations)
  {
  }

  /** The special attractions block: the attractions list, then a
      `forEach` over the locations guarded by `?.`, so missing locations
      are skipped. */
  function SpecialErrors(e: FacilitiesErrorMap, d: FacilitiesForm): Outcome<FacilitiesErrorMap> {
    if !Truthy(d.specialAttractionsAvailable) then Ok(e)
    else
      var e1 := Put(e, MissingOrEmpty(d.specialAttractions), Field(SpecialAttractions), SpecialAttractionsRequired);
      if Nullish(d.specialAttractionsLocations) then Ok(e1)
      else ForEachErrors(e1, d.specialAttractionsLocations, NeverThrows, LocationEntry)
  }

  function FacilitiesErrors(d: FacilitiesForm): Outcome<FacilitiesErrorMap> {
    SpecialErrors(FoodCourtErrors(RestroomErrors(map[], d), d), d)
  }

  method CheckRestrooms(e: FacilitiesErrorMap, d: FacilitiesForm) returns (errors: FacilitiesErrorMap)
    ensures errors == RestroomErrors(e, d)
  {
    errors := e;
    if Truthy(d.restroomsAvailable) {
      if !Truthy(d.restroomCount) || Less(d.restroomCount, Num(1)) {
        errors := errors[Field(RestroomCount) := RestroomCountInvalid];
      }
      if !Truthy(d.restroomLocations) || OptProp(d.restroomLocations, "length") == Num(0) {
        errors := errors[Field(RestroomLocations) := RestroomLocationsRequired];
      }
    }
  }

  method CheckFoodCourts(e: FacilitiesErrorMap, d: FacilitiesForm) returns (errors: FacilitiesErrorMap)
    ensures errors == FoodCourtErrors(e, d)
  {
    errors := e;
    if Truthy(d.foodCourtsAvailable) {
      if !Truthy(d.foodCourtCount) || Less(d.foodCourtCount, Num(1)) {
        errors := errors[Field(FoodCourtCount) := FoodCourtCountInvalid];
      }
      if !Truthy(d.foodCourtCapacity) || Less(d.foodCourtCapacity, Num(1)) {
        errors := errors[Field(FoodCourtCapacity) := FoodCourtCapacityInvalid];
      }
      if !Truthy(d.foodCourtLocations) || OptProp(d.foodCourtLocations, "length") == Num(0) {
        errors := errors[Field(FoodCourtLocations) := FoodCourtLocationsRequired];
      }
    }
  }

  method CheckSpecialAttractions(e: FacilitiesErrorMap, d: FacilitiesForm) returns (r: Outcome<FacilitiesErrorMap>)
    ensures r == SpecialErrors(e, d)
  {
    if !Truthy(d.specialAttractionsAvailable) {
      return Ok(e);
    }
    var errors := e;
    if !Truthy(d.specialAttractions) || OptProp(d.specialAttractions, "length") == Num(0) {
      errors := errors[Field(SpecialAttractions) := SpecialAttractionsRequired];
    }
    if Nullish(d.specialAttractionsLocations) {
      return Ok(errors);
    }
    r := ForEachCheck(errors, d.specialAttractionsLocations, NeverThrows, LocationEntry);
  }

  /** `validateFacilitiesForm`. */
  method ValidateFacilitiesForm(d: FacilitiesForm) returns (r: Outcome<FacilitiesErrorMap>)
    ensures r == FacilitiesErrors(d)
  {
    var errors := CheckRestrooms(map[], d);
    errors := CheckFoodCourts(errors, d);
    r := CheckSpecialAttractions(errors, d);
  }

  /** `isFacilitiesFormComplete`: the validator returned no key. */
  function IsFacilitiesFormComplete(d: FacilitiesForm): Outcome<bool> {
    match FacilitiesErrors(d)
    case TypeError => TypeError
    case Ok(e) => Ok(|e| == 0)
  }

  // ------------------------------------------------------------ properties

  /** The validator throws exactly when the attractions group is on and
      its locations are present but not an array. */
  lemma FacilitiesThrowsIff(d: FacilitiesForm)
    ensures FacilitiesErrors(d).TypeError? <==>
      Truthy(d.specialAttractionsAvailable) && !Nullish(d.specialAttractionsLocations)
      && !d.specialAttractionsLocations.Arr?
  {
  }

  /** The restroom keys: each needs the group on, the count fails with
      `!x || x < 1`, the list with "missing or empty". A falsy flag silences
      both, whatever the nested values. */
  lemma RestroomKeysAt(d: FacilitiesForm)
    requires FacilitiesErrors(d).Ok?
    ensures Field(RestroomCount) in FacilitiesErrors(d).value <==>
      Truthy(d.restroomsAvailable) && BadCount(d.restroomCount)
    ensures Field(RestroomLocations) in FacilitiesErrors(d).value <==>
      Truthy(d.restroomsAvailable) && MissingOrEmpty(d.restroomLocations)
    ensures Field(RestroomCount) in FacilitiesErrors(d).value ==>
      FacilitiesErrors(d).value[Field(RestroomCount)] == RestroomCountInvalid
    ensures Field(RestroomLocations) in FacilitiesErrors(d).value ==>
      FacilitiesErrors(d).value[Field(RestroomLocations)] == RestroomLocationsRequired
  {
    LocationEntryKeyed();
    var e := FoodCourtErrors(RestroomErrors(map[], d), d);
    ListEntryPassThrough(e, d, Field(RestroomCount));
    ListEntryPassThrough(e, d, Field(RestroomLocations));
  }

  /** The food court keys, likewise. */
  lemma FoodCourtKeysAt(d: FacilitiesForm)
    requires FacilitiesErrors(d).Ok?
    ensures Field(FoodCourtCount) in FacilitiesErrors(d).value <==>
      Truthy(d.foodCourtsAvailable) && BadCount(d.foodCourtCount)
    ensures Field(FoodCourtCapacity) in FacilitiesErrors(d).value <==>
      Truthy(d.foodCourtsAvailable) && BadCount(d.foodCourtCapacity)
    ensures Field(FoodCourtLocations) in FacilitiesErrors(d).value <==>
      Truthy(d.foodCourtsAvailable) && MissingOrEmpty(d.foodCourtLocations)
    ensures Field(FoodCourtCount) in FacilitiesErrors(d).value ==>
      FacilitiesErrors(d).value[Field(FoodCourtCount)] == FoodCourtCountInvalid
    ensures Field(FoodCourtCapacity) in FacilitiesErrors(d).value ==>
      FacilitiesErrors(d).value[Field(FoodCourtCapacity)] == FoodCourtCapacityInvalid
    ensures Field(FoodCourtLocations) in FacilitiesErrors(d).value ==>
      FacilitiesErrors(d).value[Field(FoodCourtLocations)] == FoodCourtLocationsRequired
  {
    var e := FoodCourtErrors(RestroomErrors(map[], d), d);
    ListEntryPassThrough(e, d, Field(FoodCourtCount));
    ListEntryPassThrough(e, d, Field(FoodCourtCapacity));
    ListEntryPassThrough(e, d, Field(FoodCourtLocations));
  }

  /** An empty or missing attractions list is flagged when the group is on. */
  lemma SpecialAttractionsKeyAt(d: FacilitiesForm)
    requires FacilitiesErrors(d).Ok?
    ensures Field(SpecialAttractions) in FacilitiesErrors(d).value <==>
      Truthy(d.specialAttractionsAvailable) && MissingOrEmpty(d.specialAttractions)
    ensures Field(SpecialAttractions) in FacilitiesErrors(d).value ==>
      FacilitiesErrors(d).value[Field(SpecialAttractions)] == SpecialAttractionsRequired
  {
    LocationEntryKeyed();
    if Truthy(d.specialAttractionsAvailable) && d.specialAttractionsLocations.Arr? {
      var items := d.specialAttractionsLocations.items;
      IndexedErrorsAt(items, |items|, LocationEntry, SpecialAttractionsLocations, Field(SpecialAttractions));
    }
  }

  /** The only indexed keys are `specialAttractionsLocations.idx`, written
      exactly for an existing entry that is falsy or empty. Indices past the
      end are never flagged, and the attractions list is never consulted. */
  lemma LocationKeyAt(d: FacilitiesForm, p: FieldPath<FacilitiesField>)
    requires FacilitiesErrors(d).Ok? && !p.Field?
    ensures p in FacilitiesErrors(d).value <==>
      && p.Item? && p.list == SpecialAttractionsLocations
      && Truthy(d.specialAttractionsAvailable) && d.specialAttractionsLocations.Arr?
      && p.index < |d.specialAttractionsLocations.items|
      && MissingOrEmpty(d.specialAttractionsLocations.items[p.index])
    ensures p in FacilitiesErrors(d).value ==> FacilitiesErrors(d).value[p] == AttractionLocationRequired
  {
    LocationEntryKeyed();
    if Truthy(d.specialAttractionsAvailable) && d.specialAttractionsLocations.Arr? {
      var items := d.specialAttractionsLocations.items;
      IndexedErrorsAt(items, |items|, LocationEntry, SpecialAttractionsLocations, p);
    }
  }

  /** A block's own field keys survive the locations loop. */
  lemma ListEntryPassThrough(e: FacilitiesErrorMap, d: FacilitiesForm, p: FieldPath<FacilitiesField>)
    requires SpecialErrors(e, d).Ok? && p.Field? && p != Field(SpecialAttractions)
    ensures p in SpecialErrors(e, d).value <==> p in e
    ensures p in e ==> SpecialErrors(e, d).value[p] == e[p]
  {
    LocationEntryKeyed();
    if Truthy(d.specialAttractionsAvailable) && d.specialAttractionsLocations.Arr? {
      var items := d.specialAttractionsLocations.items;
      IndexedErrorsAt(items, |items|, LocationEntry, SpecialAttractionsLocations, p);
    }
  }

  /** A count of 1 passes the count check; 0 and a missing count fail. */
  lemma CountBoundary()
    ensures !BadCount(Num(1)) && BadCount(Num(0)) && BadCount(Undef)
  {
  }

  /** Changing the attractions list changes no location key: the number of
      locations is never compared with the number of attractions. */
  lemma LocationsIgnoreAttractions(d: FacilitiesForm, attractions: JVal, p: FieldPath<FacilitiesField>)
    requires FacilitiesErrors(d).Ok? && !p.Field?
    ensures FacilitiesErrors(d.(specialAttractions := attractions)).Ok?
    ensures p in FacilitiesErrors(d).value <==> p in FacilitiesErrors(d.(specialAttractions := attractions)).value
  {
    var d' := d.(specialAttractions := attractions);
    assert FacilitiesErrors(d').Ok?;
    LocationKeyAt(d, p);
    LocationKeyAt(d', p);
  }

  /** Complete exactly when the validator returns an empty map. */
  lemma CompleteIffNoErrors(d: FacilitiesForm)
    ensures IsFacilitiesFormComplete(d) == Ok(true) <==> FacilitiesErrors(d) == Ok(map[])
  {
    if FacilitiesErrors(d).Ok? && |FacilitiesErrors(d).value| == 0 {
      assert FacilitiesErrors(d).value == map[];
    }
  }
}
