/** The venue details form (src/utils/validateVenueDetailsForm.js): a
    validator that walks the seating sections, the gates, the VIP zones and
    the restricted areas, and a completeness predicate written separately
    with `every`. */
module VenueDetailsValidation {
  import opened JsValues
  import opened FormErrors

  /** The properties both functions read. The validator reads the layout
      from `HeaderLayoutType`, a name the venue page never writes (it stores
      `layoutType`), so on the page's records this field is `Undef`. */
  datatype VenueForm = VenueForm(
    headerLayoutType: JVal, sections: JVal, customFile: JVal, gates: JVal,
    hasVIPZones: JVal, vipZones: JVal, hasRestrictedAreas: JVal, restrictedAreas: JVal)

  /** Top-level keys, the lists indexed keys live under, and the item
      properties that name an indexed key's last segment. */
  datatype VenueField =
    | HeaderLayoutType | Sections | CustomFile | Gates | VipZones | RestrictedAreas
    | Name | Capacity | Type | ConnectedSections | Location | EntryExitGates

  type VenueErrorMap = ErrorMap<VenueField>

  const LayoutRequired := "Please select a seating HeaderLayout type"
  const SectionsRequired := "At least one section is required"
  const SectionNameRequired := "Section name is required"
  const CapacityPositive := "Capacity must be a positive number"
  const CustomFileRequired := "Please upload a CSV or JSON file"
  const GatesRequired := "At least one gate is required"
  const GateNameRequired := "Gate name is required"
  const GateTypeRequired := "Gate type is required"
  const ConnectedSectionsRequired := "Select at least one section"
  const VipZonesRequired := "Add at least one VIP zone"
  const VipZoneNameRequired := "VIP zone name is required"
  const LocationRequired := "Location is required"
  const EntryExitGatesRequired := "Select at least one gate"
  const RestrictedAreasRequired := "Add at least one restricted area"
  const RestrictionTypeRequired := "Restriction type is required"

  const Standard := Str("Standard")
  const Custom := Str("Custom")
  const ServiceDelivery := Str("Service/Delivery")

  // ------------------------------------------------------------ validator

  /** One visit of the sections loop: `sections.i.name` for a falsy name,
      `sections.i.capacity` for a capacity that is falsy or `<= 0`. */
  function SectionEntry(s: JVal, i: nat): VenueErrorMap {
    Put(Put(map[],
      !Truthy(OptProp(s, "name")), ItemField(Sections, i, Name), SectionNameRequired),
      NotPositive(OptProp(s, "capacity")), ItemField(Sections, i, Capacity), CapacityPositive)
  }

  /** Does gate `g` need connected sections? Every type except
      "Service/Delivery" does. */
  predicate NeedsSections(g: JVal) {
    OptProp(g, "type") != ServiceDelivery
  }

  /** One visit of the gates loop. */
  function GateEntry(g: JVal, i: nat): VenueErrorMap {
    Put(Put(Put(Put(map[],
      !Truthy(OptProp(g, "name")), ItemField(Gates, i, Name), GateNameRequired),
      !Truthy(OptProp(g, "type")), ItemField(Gates, i, Type), GateTypeRequired),
      NotPositive(OptProp(g, "capacity")), ItemField(Gates, i, Capacity), CapacityPositive),
      NeedsSections(g) && MissingOrEmpty(OptProp(g, "connectedSections")),
      ItemField(Gates, i, ConnectedSections), ConnectedSectionsRequired)
  }

  /** One visit of the VIP zones loop; the gates of a zone are read from
      `entryExitGates`. */
  function VipZoneEntry(v: JVal, i: nat): VenueErrorMap {
    Put(Put(Put(Put(map[],
      !Truthy(OptProp(v, "name")), ItemField(VipZones, i, Name), VipZoneNameRequired),
      !Truthy(OptProp(v, "location")), ItemField(VipZones, i, Location), LocationRequired),
      MissingOrEmpty(OptProp(v, "entryExitGates")), ItemField(VipZones, i, EntryExitGates), EntryExitGatesRequired),
      NotPositive(OptProp(v, "capacity")), ItemField(VipZones, i, Capacity), CapacityPositive)
  }

  /** One visit of the restricted areas loop. */
  function RestrictedAreaEntry(r: JVal, i: nat): VenueErrorMap {
    Put(Put(map[],
      !Truthy(OptProp(r, "location")), ItemField(RestrictedAreas, i, Location), LocationRequired),
      !Truthy(OptProp(r, "type")), ItemField(RestrictedAreas, i, Type), RestrictionTypeRequired)
  }

  /** Each loop body reads a property of its item, which throws on
      `undefined` and `null` items. */
  predicate ItemThrows(x: JVal) {
    Nullish(x)
  }

  lemma SectionEntryKeyed()
    ensures KeysUnder(SectionEntry, Sections)
  {
  }

  lemma GateEntryKeyed()
    ensures KeysUnder(GateEntry, Gates)
  {
  }

  lemma VipZoneEntryKeyed()
    ensures KeysUnder(VipZoneEntry, VipZones)
  {
  }

  lemma RestrictedAreaEntryKeyed()
    ensures KeysUnder(RestrictedAreaEntry, RestrictedAreas)
  {
  }

  /** The header check, then the sections block (Standard layout only). */
  function LayoutErrors(d: VenueForm): Outcome<VenueErrorMap> {
    var e := Put(map[], !Truthy(d.headerLayoutType), Field(HeaderLayoutType), LayoutRequired);
    ListBlock(e, d.headerLayoutType == Standard, d.sections, Sections, SectionsRequired, ItemThrows, SectionEntry)
  }

  /** The errors object after every block in turn, or the TypeError the
      first failing block throws. */
  function VenueErrors(d: VenueForm): Outcome<VenueErrorMap> {
    match LayoutErrors(d)
    case TypeError => TypeError
    case Ok(e1) =>
      var e2 := Put(e1, d.headerLayoutType == Custom && !Truthy(d.customFile), Field(CustomFile), CustomFileRequired);
      match ListBlock(e2, true, d.gates, Gates, GatesRequired, ItemThrows, GateEntry)
      case TypeError => TypeError
      case Ok(e3) =>
        match ListBlock(e3, Truthy(d.hasVIPZones), d.vipZones, VipZones, VipZonesRequired, ItemThrows, VipZoneEntry)
        case TypeError => TypeError
        case Ok(e4) =>
          ListBlock(e4, Truthy(d.hasRestrictedAreas), d.restrictedAreas, RestrictedAreas,
            RestrictedAreasRequired, ItemThrows, RestrictedAreaEntry)
  }

  /** `validateVenueForm`. */
  method ValidateVenueForm(d: VenueForm) returns (r: Outcome<VenueErrorMap>)
    ensures r == VenueErrors(d)
  {
    var errors: VenueErrorMap := map[];
    if !Truthy(d.headerLayoutType) {
      errors := errors[Field(HeaderLayoutType) := LayoutRequired];
    }
    r := CheckList(errors, d.headerLayoutType == Standard, d.sections, Sections, SectionsRequired,
      ItemThrows, SectionEntry);
    if r.TypeError? {
      return;
    }
    errors := r.value;
    if d.headerLayoutType == Custom {
      if !Truthy(d.customFile) {
        errors := errors[Field(CustomFile) := CustomFileRequired];
      }
    }
    r := CheckList(errors, true, d.gates, Gates, GatesRequired, ItemThrows, GateEntry);
    if r.TypeError? {
      return;
    }
    r := CheckList(r.value, Truthy(d.hasVIPZones), d.vipZones, VipZones, VipZonesRequired,
      ItemThrows, VipZoneEntry);
    if r.TypeError? {
      return;
    }
    r := CheckList(r.value, Truthy(d.hasRestrictedAreas), d.restrictedAreas, RestrictedAreas,
      RestrictedAreasRequired, ItemThrows, RestrictedAreaEntry);
  }

  /** The errors object between the blocks of a validator run that does not
      throw: `e0` after the header check, `e1` after the sections block,
      `e2` after the custom file check, `e3` after the gates block and `e4`
      after the VIP zones block; the restricted areas block gives the result.
      Every visit writes only keys of its own list. */
  lemma VenueStages(d: VenueForm) returns (e0: VenueErrorMap, e1: VenueErrorMap, e2: VenueErrorMap,
                                           e3: VenueErrorMap, e4: VenueErrorMap)
    requires VenueErrors(d).Ok?
    ensures && KeysUnder(SectionEntry, Sections) && KeysUnder(GateEntry, Gates)
            && KeysUnder(VipZoneEntry, VipZones) && KeysUnder(RestrictedAreaEntry, RestrictedAreas)
    ensures e0 == Put(map[], !Truthy(d.headerLayoutType), Field(HeaderLayoutType), LayoutRequired)
    ensures ListBlock(e0, d.headerLayoutType == Standard, d.sections, Sections, SectionsRequired, ItemThrows, SectionEntry) == Ok(e1)
    ensures e2 == Put(e1, d.headerLayoutType == Custom && !Truthy(d.customFile), Field(CustomFile), CustomFileRequired)
    ensures ListBlock(e2, true, d.gates, Gates, GatesRequired, ItemThrows, GateEntry) == Ok(e3)
    ensures ListBlock(e3, Truthy(d.hasVIPZones), d.vipZones, VipZones, VipZonesRequired, ItemThrows, VipZoneEntry) == Ok(e4)
    ensures ListBlock(e4, Truthy(d.hasRestrictedAreas), d.restrictedAreas, RestrictedAreas,
      RestrictedAreasRequired, ItemThrows, RestrictedAreaEntry) == VenueErrors(d)
  {
    SectionEntryKeyed();
    GateEntryKeyed();
    VipZoneEntryKeyed();
    RestrictedAreaEntryKeyed();
    e0 := Put(map[], !Truthy(d.headerLayoutType), Field(HeaderLayoutType), LayoutRequired);
    e1 := LayoutErrors(d).value;
    e2 := Put(e1, d.headerLayoutType == Custom && !Truthy(d.customFile), Field(CustomFile), CustomFileRequired);
    e3 := ListBlock(e2, true, d.gates, Gates, GatesRequired, ItemThrows, GateEntry).value;
    e4 := ListBlock(e3, Truthy(d.hasVIPZones), d.vipZones, VipZones, VipZonesRequired, ItemThrows, VipZoneEntry).value;
  }

  /** The header key is written exactly when the layout is falsy. */
  lemma HeaderKeyAt(d: VenueForm)
    requires VenueErrors(d).Ok?
    ensures Field(HeaderLayoutType) in VenueErrors(d).value <==> !Truthy(d.headerLayoutType)
    ensures !Truthy(d.headerLayoutType) ==> VenueErrors(d).value[Field(HeaderLayoutType)] == LayoutRequired
  {
    var e0, e1, e2, e3, e4 := VenueStages(d);
    ListBlockOther(e0, d.headerLayoutType == Standard, d.sections, Sections, SectionsRequired, ItemThrows, SectionEntry, Sections, Field(HeaderLayoutType));
    ListBlockOther(e2, true, d.gates, Gates, GatesRequired, ItemThrows, GateEntry, Gates, Field(HeaderLayoutType));
    ListBlockOther(e3, Truthy(d.hasVIPZones), d.vipZones, VipZones, VipZonesRequired, ItemThrows, VipZoneEntry, VipZones, Field(HeaderLayoutType));
    ListBlockOther(e4, Truthy(d.hasRestrictedAreas), d.restrictedAreas, RestrictedAreas, RestrictedAreasRequired, ItemThrows, RestrictedAreaEntry, RestrictedAreas, Field(HeaderLayoutType));
  }

  /** The sections key is written exactly for a Standard layout whose
      sections are missing or empty. */
  lemma SectionsKeyAt(d: VenueForm)
    requires VenueErrors(d).Ok?
    ensures Field(Sections) in VenueErrors(d).value <==> d.headerLayoutType == Standard && MissingOrEmpty(d.sections)
    ensures d.headerLayoutType == Standard && MissingOrEmpty(d.sections) ==> VenueErrors(d).value[Field(Sections)] == SectionsRequired
  {
    var e0, e1, e2, e3, e4 := VenueStages(d);
    ListBlockOwnKey(e0, d.headerLayoutType == Standard, d.sections, Sections, SectionsRequired, ItemThrows, SectionEntry, Sections);
    ListBlockOther(e2, true, d.gates, Gates, GatesRequired, ItemThrows, GateEntry, Gates, Field(Sections));
    ListBlockOther(e3, Truthy(d.hasVIPZones), d.vipZones, VipZones, VipZonesRequired, ItemThrows, VipZoneEntry, VipZones, Field(Sections));
    ListBlockOther(e4, Truthy(d.hasRestrictedAreas), d.restrictedAreas, RestrictedAreas, RestrictedAreasRequired, ItemThrows, RestrictedAreaEntry, RestrictedAreas, Field(Sections));
  }

  /** The custom file key is written exactly for a Custom layout with no
      file. */
  lemma CustomFileKeyAt(d: VenueForm)
    requires VenueErrors(d).Ok?
    ensures Field(CustomFile) in VenueErrors(d).value <==> d.headerLayoutType == Custom && !Truthy(d.customFile)
    ensures d.headerLayoutType == Custom && !Truthy(d.customFile) ==> VenueErrors(d).value[Field(CustomFile)] == CustomFileRequired
  {
    var e0, e1, e2, e3, e4 := VenueStages(d);
    ListBlockOther(e0, d.headerLayoutType == Standard, d.sections, Sections, SectionsRequired, ItemThrows, SectionEntry, Sections, Field(CustomFile));
    ListBlockOther(e2, true, d.gates, Gates, GatesRequired, ItemThrows, GateEntry, Gates, Field(CustomFile));
    ListBlockOther(e3, Truthy(d.hasVIPZones), d.vipZones, VipZones, VipZonesRequired, ItemThrows, VipZoneEntry, VipZones, Field(CustomFile));
    ListBlockOther(e4, Truthy(d.hasRestrictedAreas), d.restrictedAreas, RestrictedAreas, RestrictedAreasRequired, ItemThrows, RestrictedAreaEntry, RestrictedAreas, Field(CustomFile));
  }

  /** The gates key is written exactly when the gates are missing or empty. */
  lemma GatesKeyAt(d: VenueForm)
    requires VenueErrors(d).Ok?
    ensures Field(Gates) in VenueErrors(d).value <==> MissingOrEmpty(d.gates)
    ensures MissingOrEmpty(d.gates) ==> VenueErrors(d).value[Field(Gates)] == GatesRequired
  {
    var e0, e1, e2, e3, e4 := VenueStages(d);
    ListBlockOther(e0, d.headerLayoutType == Standard, d.sections, Sections, SectionsRequired, ItemThrows, SectionEntry, Sections, Field(Gates));
    ListBlockOwnKey(e2, true, d.gates, Gates, GatesRequired, ItemThrows, GateEntry, Gates);
    ListBlockOther(e3, Truthy(d.hasVIPZones), d.vipZones, VipZones, VipZonesRequired, ItemThrows, VipZoneEntry, VipZones, Field(Gates));
    ListBlockOther(e4, Truthy(d.hasRestrictedAreas), d.restrictedAreas, RestrictedAreas, RestrictedAreasRequired, ItemThrows, RestrictedAreaEntry, RestrictedAreas, Field(Gates));
  }

  /** The VIP zones key is written exactly when VIP zones are on and the list
      is missing or empty. */
  lemma VipZonesKeyAt(d: VenueForm)
    requires VenueErrors(d).Ok?
    ensures Field(VipZones) in VenueErrors(d).value <==> Truthy(d.hasVIPZones) && MissingOrEmpty(d.vipZones)
    ensures Truthy(d.hasVIPZones) && MissingOrEmpty(d.vipZones) ==> VenueErrors(d).value[Field(VipZones)] == VipZonesRequired
  {
    var e0, e1, e2, e3, e4 := VenueStages(d);
    ListBlockOther(e0, d.headerLayoutType == Standard, d.sections, Sections, SectionsRequired, ItemThrows, SectionEntry, Sections, Field(VipZones));
    ListBlockOther(e2, true, d.gates, Gates, GatesRequired, ItemThrows, GateEntry, Gates, Field(VipZones));
    ListBlockOwnKey(e3, Truthy(d.hasVIPZones), d.vipZones, VipZones, VipZonesRequired, ItemThrows, VipZoneEntry, VipZones);
    ListBlockOther(e4, Truthy(d.hasRestrictedAreas), d.restrictedAreas, RestrictedAreas, RestrictedAreasRequired, ItemThrows, RestrictedAreaEntry, RestrictedAreas, Field(VipZones));
  }

  /** The restricted areas key is written exactly when restricted areas are
      on and the list is missing or empty. */
  lemma RestrictedAreasKeyAt(d: VenueForm)
    requires VenueErrors(d).Ok?
    ensures Field(RestrictedAreas) in VenueErrors(d).value <==> Truthy(d.hasRestrictedAreas) && MissingOrEmpty(d.restrictedAreas)
    ensures Truthy(d.hasRestrictedAreas) && MissingOrEmpty(d.restrictedAreas) ==> VenueErrors(d).value[Field(RestrictedAreas)] == RestrictedAreasRequired
  {
    var e0, e1, e2, e3, e4 := VenueStages(d);
    ListBlockOther(e0, d.headerLayoutType == Standard, d.sections, Sections, SectionsRequired, ItemThrows, SectionEntry, Sections, Field(RestrictedAreas));
    ListBlockOther(e2, true, d.gates, Gates, GatesRequired, ItemThrows, GateEntry, Gates, Field(RestrictedAreas));
    ListBlockOther(e3, Truthy(d.hasVIPZones), d.vipZones, VipZones, VipZonesRequired, ItemThrows, VipZoneEntry, VipZones, Field(RestrictedAreas));
    ListBlockOwnKey(e4, Truthy(d.hasRestrictedAreas), d.restrictedAreas, RestrictedAreas, RestrictedAreasRequired, ItemThrows, RestrictedAreaEntry, RestrictedAreas);
  }

  /** A `sections.i.*` key is written exactly when the visit of section `i`
      writes it: only for a Standard layout, only for existing sections. */
  lemma SectionItemAt(d: VenueForm, p: FieldPath<VenueField>)
    requires VenueErrors(d).Ok? && !p.Field? && p.list == Sections
    ensures p in VenueErrors(d).value <==> VisitWrites(d.headerLayoutType == Standard, d.sections, SectionEntry, p)
    ensures VisitWrites(d.headerLayoutType == Standard, d.sections, SectionEntry, p) ==>
      VenueErrors(d).value[p] == SectionEntry(d.sections.items[p.index], p.index)[p]
  {
    var e0, e1, e2, e3, e4 := VenueStages(d);
    ListBlockItems(e0, d.headerLayoutType == Standard, d.sections, Sections, SectionsRequired, ItemThrows, SectionEntry, Sections, p);
    ListBlockOther(e2, true, d.gates, Gates, GatesRequired, ItemThrows, GateEntry, Gates, p);
    ListBlockOther(e3, Truthy(d.hasVIPZones), d.vipZones, VipZones, VipZonesRequired, ItemThrows, VipZoneEntry, VipZones, p);
    ListBlockOther(e4, Truthy(d.hasRestrictedAreas), d.restrictedAreas, RestrictedAreas, RestrictedAreasRequired, ItemThrows, RestrictedAreaEntry, RestrictedAreas, p);
  }

  /** A `gates.i.*` key is written exactly when the visit of gate `i` writes
      it. */
  lemma GateItemAt(d: VenueForm, p: FieldPath<VenueField>)
    requires VenueErrors(d).Ok? && !p.Field? && p.list == Gates
    ensures p in VenueErrors(d).value <==> VisitWrites(true, d.gates, GateEntry, p)
    ensures VisitWrites(true, d.gates, GateEntry, p) ==>
      VenueErrors(d).value[p] == GateEntry(d.gates.items[p.index], p.index)[p]
  {
    var e0, e1, e2, e3, e4 := VenueStages(d);
    ListBlockOther(e0, d.headerLayoutType == Standard, d.sections, Sections, SectionsRequired, ItemThrows, SectionEntry, Sections, p);
    ListBlockItems(e2, true, d.gates, Gates, GatesRequired, ItemThrows, GateEntry, Gates, p);
    ListBlockOther(e3, Truthy(d.hasVIPZones), d.vipZones, VipZones, VipZonesRequired, ItemThrows, VipZoneEntry, VipZones, p);
    ListBlockOther(e4, Truthy(d.hasRestrictedAreas), d.restrictedAreas, RestrictedAreas, RestrictedAreasRequired, ItemThrows, RestrictedAreaEntry, RestrictedAreas, p);
  }

  /** A `vipZones.i.*` key is written exactly when VIP zones are on and the
      visit of zone `i` writes it. */
  lemma VipZoneItemAt(d: VenueForm, p: FieldPath<VenueField>)
    requires VenueErrors(d).Ok? && !p.Field? && p.list == VipZones
    ensures p in VenueErrors(d).value <==> VisitWrites(Truthy(d.hasVIPZones), d.vipZones, VipZoneEntry, p)
    ensures VisitWrites(Truthy(d.hasVIPZones), d.vipZones, VipZoneEntry, p) ==>
      VenueErrors(d).value[p] == VipZoneEntry(d.vipZones.items[p.index], p.index)[p]
  {
    var e0, e1, e2, e3, e4 := VenueStages(d);
    ListBlockOther(e0, d.headerLayoutType == Standard, d.sections, Sections, SectionsRequired, ItemThrows, SectionEntry, Sections, p);
    ListBlockOther(e2, true, d.gates, Gates, GatesRequired, ItemThrows, GateEntry, Gates, p);
    ListBlockItems(e3, Truthy(d.hasVIPZones), d.vipZones, VipZones, VipZonesRequired, ItemThrows, VipZoneEntry, VipZones, p);
    ListBlockOther(e4, Truthy(d.hasRestrictedAreas), d.restrictedAreas, RestrictedAreas, RestrictedAreasRequired, ItemThrows, RestrictedAreaEntry, RestrictedAreas, p);
  }

  /** A `restrictedAreas.i.*` key is written exactly when restricted areas
      are on and the visit of area `i` writes it. */
  lemma RestrictedAreaItemAt(d: VenueForm, p: FieldPath<VenueField>)
    requires VenueErrors(d).Ok? && !p.Field? && p.list == RestrictedAreas
    ensures p in VenueErrors(d).value <==> VisitWrites(Truthy(d.hasRestrictedAreas), d.restrictedAreas, RestrictedAreaEntry, p)
    ensures VisitWrites(Truthy(d.hasRestrictedAreas), d.restrictedAreas, RestrictedAreaEntry, p) ==>
      VenueErrors(d).value[p] == RestrictedAreaEntry(d.restrictedAreas.items[p.index], p.index)[p]
  {
    var e0, e1, e2, e3, e4 := VenueStages(d);
    ListBlockOther(e0, d.headerLayoutType == Standard, d.sections, Sections, SectionsRequired, ItemThrows, SectionEntry, Sections, p);
    ListBlockOther(e2, true, d.gates, Gates, GatesRequired, ItemThrows, GateEntry, Gates, p);
    ListBlockOther(e3, Truthy(d.hasVIPZones), d.vipZones, VipZones, VipZonesRequired, ItemThrows, VipZoneEntry, VipZones, p);
    ListBlockItems(e4, Truthy(d.hasRestrictedAreas), d.restrictedAreas, RestrictedAreas, RestrictedAreasRequired, ItemThrows, RestrictedAreaEntry, RestrictedAreas, p);
  }

  // ------------------------------------------------------------ completeness

  /** `s.name && s.capacity > 0`; reading `name` throws on a nullish item. */
  function SectionOk(s: JVal): Outcome<bool> {
    if Nullish(s) then TypeError
    else Ok(Truthy(OptProp(s, "name")) && Greater(OptProp(s, "capacity"), Num(0)))
  }

  /** The gate test: name, type and a positive capacity, and connected
      sections for every type except "Service/Delivery". */
  function GateOk(g: JVal): Outcome<bool> {
    if Nullish(g) then TypeError
    else Ok(
      && Truthy(OptProp(g, "name")) && Truthy(OptProp(g, "type"))
      && Greater(OptProp(g, "capacity"), Num(0))
      && (NeedsSections(g) ==> Greater(OptProp(OptProp(g, "connectedSections"), "length"), Num(0))))
  }

  /** The VIP zone test: name, location, `entryExitGates?.length > 0` and a
      positive capacity. */
  function VipZoneOk(v: JVal): Outcome<bool> {
    if Nullish(v) then TypeError
    else Ok(
      && Truthy(OptProp(v, "name")) && Truthy(OptProp(v, "location"))
      && Greater(OptProp(OptProp(v, "entryExitGates"), "length"), Num(0))
      && Greater(OptProp(v, "capacity"), Num(0)))
  }

  function RestrictedAreaOk(r: JVal): Outcome<bool> {
    if Nullish(r) then TypeError
    else Ok(Truthy(OptProp(r, "location")) && Truthy(OptProp(r, "type")))
  }

  /** `sectionsComplete`: a Standard layout needs sections that all pass,
      reading `sections.length` unguarded; a Custom layout needs a file;
      any other layout is never complete. */
  function SectionsComplete(d: VenueForm): Outcome<bool> {
    if d.headerLayoutType == Standard then
      if Nullish(d.sections) then TypeError else ListComplete(d.sections, SectionOk)
    else if d.headerLayoutType == Custom then Ok(Truthy(d.customFile))
    else Ok(false)
  }

  function GatesComplete(d: VenueForm): Outcome<bool> {
    ListComplete(d.gates, GateOk)
  }

  function VipComplete(d: VenueForm): Outcome<bool> {
    if !Truthy(d.hasVIPZones) then Ok(true) else ListComplete(d.vipZones, VipZoneOk)
  }

  function RestrictedComplete(d: VenueForm): Outcome<bool> {
    if !Truthy(d.hasRestrictedAreas) then Ok(true) else ListComplete(d.restrictedAreas, RestrictedAreaOk)
  }

  /** `isVenueFormComplete`: all four parts are evaluated before they are
      combined, so a throw in any of them escapes. */
  function IsVenueFormComplete(d: VenueForm): Outcome<bool> {
    match (SectionsComplete(d), GatesComplete(d), VipComplete(d), RestrictedComplete(d))
    case (Ok(a), Ok(b), Ok(c), Ok(e)) => Ok(a && b && c && e)
    case _ => TypeError
  }

  // ------------------------------------------------------------ properties

  /** A falsy layout is flagged, and then neither the Standard checks nor
      the Custom check write anything. */
  lemma FalsyLayoutOnlyHeader(d: VenueForm)
    requires VenueErrors(d).Ok? && !Truthy(d.headerLayoutType)
    ensures Field(HeaderLayoutType) in VenueErrors(d).value && VenueErrors(d).value[Field(HeaderLayoutType)] == LayoutRequired
    ensures Field(Sections) !in VenueErrors(d).value && Field(CustomFile) !in VenueErrors(d).value
    ensures forall p: FieldPath<VenueField> | !p.Field? && p.list == Sections :: p !in VenueErrors(d).value
  {
    HeaderKeyAt(d);
    SectionsKeyAt(d);
    CustomFileKeyAt(d);
    forall p: FieldPath<VenueField> | !p.Field? && p.list == Sections
      ensures p !in VenueErrors(d).value
    {
      SectionItemAt(d, p);
    }
  }

  /** A Standard layout with no sections gets the single sections key and
      no per-section key. */
  lemma StandardWithoutSections(d: VenueForm)
    requires VenueErrors(d).Ok? && d.headerLayoutType == Standard && MissingOrEmpty(d.sections)
    ensures Field(Sections) in VenueErrors(d).value && VenueErrors(d).value[Field(Sections)] == SectionsRequired
    ensures forall p: FieldPath<VenueField> | !p.Field? && p.list == Sections :: p !in VenueErrors(d).value
  {
    SectionsKeyAt(d);
    forall p: FieldPath<VenueField> | !p.Field? && p.list == Sections
      ensures p !in VenueErrors(d).value
    {
      SectionItemAt(d, p);
    }
  }

  /** For Standard sections and every index of the list, the name key
      occurs exactly for a falsy name, the capacity key exactly for a
      capacity that is falsy or not positive; no key names an index past the
      end. */
  lemma SectionKeysIff(d: VenueForm, i: nat)
    requires VenueErrors(d).Ok? && d.headerLayoutType == Standard && d.sections.Arr?
    ensures i < |d.sections.items| ==>
      && (ItemField(Sections, i, Name) in VenueErrors(d).value <==> !Truthy(OptProp(d.sections.items[i], "name")))
      && (ItemField(Sections, i, Capacity) in VenueErrors(d).value <==>
            NotPositive(OptProp(d.sections.items[i], "capacity")))
    ensures i >= |d.sections.items| ==> forall f: VenueField :: ItemField(Sections, i, f) !in VenueErrors(d).value
  {
    SectionItemAt(d, ItemField(Sections, i, Name));
    SectionItemAt(d, ItemField(Sections, i, Capacity));
    forall f: VenueField ensures i >= |d.sections.items| ==> ItemField(Sections, i, f) !in VenueErrors(d).value {
      SectionItemAt(d, ItemField(Sections, i, f));
    }
  }

  /** A "Service/Delivery" gate never needs connected sections; any other
      gate with missing or empty connected sections is flagged. */
  lemma ServiceDeliveryExempt(d: VenueForm, i: nat)
    requires VenueErrors(d).Ok? && d.gates.Arr? && i < |d.gates.items|
    ensures ItemField(Gates, i, ConnectedSections) in VenueErrors(d).value <==>
      OptProp(d.gates.items[i], "type") != ServiceDelivery
      && MissingOrEmpty(OptProp(d.gates.items[i], "connectedSections"))
  {
    var g := d.gates.items[i];
    assert OptProp(d.gates, "length") == Num(|d.gates.items|);
    assert ItemField(Gates, i, ConnectedSections) in GateEntry(g, i) <==>
      NeedsSections(g) && MissingOrEmpty(OptProp(g, "connectedSections"));
    GateItemAt(d, ItemField(Gates, i, ConnectedSections));
  }

  /** No gates: the validator writes the gates key and the form is not
      complete. */
  lemma NoGatesNotComplete(d: VenueForm)
    requires MissingOrEmpty(d.gates)
    ensures VenueErrors(d).Ok? ==> Field(Gates) in VenueErrors(d).value && VenueErrors(d).value[Field(Gates)] == GatesRequired
    ensures IsVenueFormComplete(d) != Ok(true)
  {
    if VenueErrors(d).Ok? {
      GatesKeyAt(d);
    }
    assert GatesComplete(d) == Ok(false);
  }

  /** With VIP zones off no `vipZones` key occurs, and with restricted areas
      off no `restrictedAreas` key occurs, whatever the lists hold. */
  lemma FalsyFlagsSilenceLists(d: VenueForm)
    requires VenueErrors(d).Ok?
    ensures !Truthy(d.hasVIPZones) ==>
      forall p: FieldPath<VenueField> | p == Field(VipZones) || (!p.Field? && p.list == VipZones) :: p !in VenueErrors(d).value
    ensures !Truthy(d.hasRestrictedAreas) ==>
      forall p: FieldPath<VenueField> | p == Field(RestrictedAreas) || (!p.Field? && p.list == RestrictedAreas) :: p !in VenueErrors(d).value
  {
    VipZonesKeyAt(d);
    RestrictedAreasKeyAt(d);
    forall p: FieldPath<VenueField> | !p.Field? && p.list == VipZones
      ensures !Truthy(d.hasVIPZones) ==> p !in VenueErrors(d).value
    {
      VipZoneItemAt(d, p);
    }
    forall p: FieldPath<VenueField> | !p.Field? && p.list == RestrictedAreas
      ensures !Truthy(d.hasRestrictedAreas) ==> p !in VenueErrors(d).value
    {
      RestrictedAreaItemAt(d, p);
    }
  }

  /** A VIP zone object with no `entryExitGates` property (the venue page
      stores a zone's gates under `gates`) fails the gates check of both the
      validator and the completeness test. */
  lemma ZoneWithoutEntryExitGates(m: map<string, JVal>, i: nat)
    requires "entryExitGates" !in m
    ensures VipZoneEntry(Obj(m), i)[ItemField(VipZones, i, EntryExitGates)] == EntryExitGatesRequired
    ensures VipZoneOk(Obj(m)) == Ok(false)
  {
  }

  /** Hence every such zone in a form with VIP zones on is flagged. */
  lemma PageVipZoneAlwaysFlagged(d: VenueForm, i: nat, m: map<string, JVal>)
    requires VenueErrors(d).Ok? && Truthy(d.hasVIPZones) && d.vipZones.Arr?
    requires i < |d.vipZones.items| && d.vipZones.items[i] == Obj(m) && "entryExitGates" !in m
    ensures ItemField(VipZones, i, EntryExitGates) in VenueErrors(d).value
    ensures VenueErrors(d).value[ItemField(VipZones, i, EntryExitGates)] == EntryExitGatesRequired
  {
    ZoneWithoutEntryExitGates(m, i);
    VipZoneItemAt(d, ItemField(VipZones, i, EntryExitGates));
  }

  /** The venue page stores its layout as `layoutType`, so the validator
      sees no `HeaderLayoutType`: such a form is always flagged and never
      complete. */
  lemma PageLayoutNeverRead(d: VenueForm)
    requires d.headerLayoutType == Undef
    ensures VenueErrors(d).Ok? ==> Field(HeaderLayoutType) in VenueErrors(d).value
    ensures IsVenueFormComplete(d) != Ok(true)
  {
    if VenueErrors(d).Ok? {
      HeaderKeyAt(d);
    }
  }

  /** The venue page never sets `hasVIPZones` or `hasRestrictedAreas`, so on
      a form it builds neither block runs: no key of either list occurs, and
      both parts count as complete whatever the lists hold. */
  lemma PageListsNeverChecked(d: VenueForm)
    requires VenueErrors(d).Ok? && d.hasVIPZones == Undef && d.hasRestrictedAreas == Undef
    ensures forall p: FieldPath<VenueField> | p == Field(VipZones) || (!p.Field? && p.list == VipZones) ::
      p !in VenueErrors(d).value
    ensures forall p: FieldPath<VenueField> | p == Field(RestrictedAreas) || (!p.Field? && p.list == RestrictedAreas) ::
      p !in VenueErrors(d).value
    ensures VipComplete(d) == Ok(true) && RestrictedComplete(d) == Ok(true)
  {
    FalsyFlagsSilenceLists(d);
  }

  /** A section capacity that is a string of no digits, such as "abc",
      converts to NaN: `capacity <= 0` is false, so the validator writes
      nothing, and `capacity > 0` is false, so the section is incomplete. */
  lemma NonNumericCapacitySilentButIncomplete(m: map<string, JVal>, i: nat)
    requires "name" in m && Truthy(m["name"]) && "capacity" in m && m["capacity"] == Str("abc")
    ensures SectionEntry(Obj(m), i) == map[]
    ensures SectionOk(Obj(m)) == Ok(false)
  {
    assert StringToNumber("abc") == NaN;
  }

  /** A gate whose `connectedSections` is `true` is neither missing nor
      empty for the validator (`true.length` is `undefined`, not 0), but
      `true.length > 0` is false, so the gate is incomplete. */
  lemma NonArraySectionsSilentButIncomplete(m: map<string, JVal>, i: nat, capacity: int)
    requires "name" in m && Truthy(m["name"]) && "type" in m && m["type"] == Str("General")
    requires "capacity" in m && m["capacity"] == Num(capacity) && capacity > 0
    requires "connectedSections" in m && m["connectedSections"] == Bool(true)
    ensures GateEntry(Obj(m), i) == map[]
    ensures GateOk(Obj(m)) == Ok(false)
  {
  }

  /** Items that pass the completeness tests are items whose visits write
      nothing. */
  lemma PassingItemsSilent()
    ensures forall x :: SectionOk(x) == Ok(true) ==> !ItemThrows(x)
    ensures forall x, i: nat :: SectionOk(x) == Ok(true) ==> SectionEntry(x, i) == map[]
    ensures forall x :: GateOk(x) == Ok(true) ==> !ItemThrows(x)
    ensures forall x, i: nat :: GateOk(x) == Ok(true) ==> GateEntry(x, i) == map[]
    ensures forall x :: VipZoneOk(x) == Ok(true) ==> !ItemThrows(x)
    ensures forall x, i: nat :: VipZoneOk(x) == Ok(true) ==> VipZoneEntry(x, i) == map[]
    ensures forall x :: RestrictedAreaOk(x) == Ok(true) ==> !ItemThrows(x)
    ensures forall x, i: nat :: RestrictedAreaOk(x) == Ok(true) ==> RestrictedAreaEntry(x, i) == map[]
  {
    forall x | Greater(OptProp(x, "capacity"), Num(0)) ensures !NotPositive(OptProp(x, "capacity")) {
      PositiveIsTruthy(OptProp(x, "capacity"));
    }
  }

  /** The two functions agree one way: a complete form has no errors. */
  lemma CompleteImpliesNoErrors(d: VenueForm)
    requires IsVenueFormComplete(d) == Ok(true)
    ensures VenueErrors(d) == Ok(map[])
  {
    SectionEntryKeyed();
    GateEntryKeyed();
    VipZoneEntryKeyed();
    RestrictedAreaEntryKeyed();
    PassingItemsSilent();
    if d.headerLayoutType == Standard {
      ListCompleteSilent(map[], d.sections, Sections, SectionsRequired, ItemThrows, SectionEntry, Sections, SectionOk);
    }
    assert LayoutErrors(d) == Ok(map[]);
    ListCompleteSilent(map[], d.gates, Gates, GatesRequired, ItemThrows, GateEntry, Gates, GateOk);
    if Truthy(d.hasVIPZones) {
      ListCompleteSilent(map[], d.vipZones, VipZones, VipZonesRequired, ItemThrows, VipZoneEntry, VipZones, VipZoneOk);
    }
    if Truthy(d.hasRestrictedAreas) {
      ListCompleteSilent(map[], d.restrictedAreas, RestrictedAreas, RestrictedAreasRequired, ItemThrows,
        RestrictedAreaEntry, RestrictedAreas, RestrictedAreaOk);
    }
  }

  /** The converse fails: with a layout string other than "Standard" and
      "Custom", and gates, VIP zones and restricted areas that pass, the
      validator reports nothing while the form is not complete. */
  lemma UnknownLayoutErrorFreeButIncomplete(d: VenueForm, layout: string)
    requires d.headerLayoutType == Str(layout) && layout != "" && layout != "Standard" && layout != "Custom"
    requires GatesComplete(d) == Ok(true) && VipComplete(d) == Ok(true) && RestrictedComplete(d) == Ok(true)
    ensures VenueErrors(d) == Ok(map[])
    ensures IsVenueFormComplete(d) == Ok(false)
  {
    GateEntryKeyed();
    VipZoneEntryKeyed();
    RestrictedAreaEntryKeyed();
    PassingItemsSilent();
    assert LayoutErrors(d) == Ok(map[]);
    ListCompleteSilent(map[], d.gates, Gates, GatesRequired, ItemThrows, GateEntry, Gates, GateOk);
    if Truthy(d.hasVIPZones) {
      ListCompleteSilent(map[], d.vipZones, VipZones, VipZonesRequired, ItemThrows, VipZoneEntry, VipZones, VipZoneOk);
    }
    if Truthy(d.hasRestrictedAreas) {
      ListCompleteSilent(map[], d.restrictedAreas, RestrictedAreas, RestrictedAreasRequired, ItemThrows,
        RestrictedAreaEntry, RestrictedAreas, RestrictedAreaOk);
    }
  }

  /** A list block that runs `forEach` over a value that is not an array,
      or over an array holding `undefined` or `null`. */
  predicate BlockThrows(on: bool, v: JVal) {
    on && !MissingOrEmpty(v) && (!v.Arr? || exists i | 0 <= i < |v.items| :: Nullish(v.items[i]))
  }

  /** The validator throws exactly when one of its list blocks throws. */
  lemma VenueThrowsIff(d: VenueForm)
    ensures VenueErrors(d).TypeError? <==>
      || BlockThrows(d.headerLayoutType == Standard, d.sections)
      || BlockThrows(true, d.gates)
      || BlockThrows(Truthy(d.hasVIPZones), d.vipZones)
      || BlockThrows(Truthy(d.hasRestrictedAreas), d.restrictedAreas)
  {
  }
}
