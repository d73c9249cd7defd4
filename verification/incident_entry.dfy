/** The district officer's incident entry form: the dependent dropdowns, the
    quantity label, the change handlers with their resets, and submission. */
module IncidentEntry {
  import opened Base
  import opened Types
  import Stats

  /** The form's partial incident. Dropdowns hold `Number(value)`, so picking
      the empty option stores 0; fields never touched are absent. */
  datatype EntryForm = EntryForm(
    distCode: int,
    tehCode: Option<int>,
    dsType: Option<int>,
    dsSubtype: Option<int>,
    dmType: Option<int>,
    dmSubtype: Option<int>,
    qty: int,
    month: int,
    year: int,
    isDeleted: bool,
    campName: Option<string>,
    noOfCamps: Option<int>,
    noOfPeoples: Option<int>)

  const DefaultYear: int := 2024
  const FloodType: int := 1

  /** `user.Dist_Code || 0`. */
  function UserDistrict(user: User): int {
    if Truthy(user.distCode) then user.distCode.value else 0
  }

  /** The form on opening and after every successful submit; `month` is the
      current month (1 to 12) read from the clock. */
  function BlankForm(user: User, month: int): (f: EntryForm)
    ensures f.distCode == (if Truthy(user.distCode) then user.distCode.value else 0)
    ensures f.year == DefaultYear && f.qty == 0 && !f.isDeleted && f.month == month
    ensures f.tehCode.None? && f.dsType.None? && f.dsSubtype.None? && f.dmType.None? && f.dmSubtype.None?
    ensures f.campName == Some("") && f.noOfCamps == Some(0) && f.noOfPeoples == Some(0)
  {
    EntryForm(UserDistrict(user), None, None, None, None, None, 0, month, DefaultYear, false, Some(""), Some(0), Some(0))
  }

  // ---------------------------------------------------------------------------
  // What the form offers

  /** The heading's district name: the first district with the user's code,
      or empty. */
  function DistrictName(districts: seq<District>, user: User): (r: string)
    ensures Find(districts, (d: District) => Some(d.code) == user.distCode).None? ==> r == ""
    ensures Find(districts, (d: District) => Some(d.code) == user.distCode).Some? ==>
              r == Find(districts, (d: District) => Some(d.code) == user.distCode).value.nameHi
  {
    match Find(districts, (d: District) => Some(d.code) == user.distCode)
    case Some(d) => d.nameHi
    case None => ""
  }

  /** The tehsils of the user's district (none when the user has no district). */
  function AvailableTehsils(tehsils: seq<Tehsil>, user: User): (r: seq<Tehsil>)
    ensures forall t :: t in r <==> t in tehsils && user.distCode == Some(t.distCode)
    ensures user.distCode.None? ==> r == []
  {
    var p := (t: Tehsil) => Some(t.distCode) == user.distCode;
    if user.distCode.None? then FilterNone(tehsils, p); Filter(tehsils, p) else Filter(tehsils, p)
  }

  /** The subtypes offered for the selected type (none while no type is selected). */
  function AvailableSubtypes(subs: seq<SubtypeEntry>, selected: Option<int>): (r: seq<SubtypeEntry>)
    ensures forall s :: s in r <==> s in subs && selected == Some(s.typeId)
    ensures selected.None? ==> r == []
  {
    var p := (s: SubtypeEntry) => Some(s.typeId) == selected;
    if selected.None? then FilterNone(subs, p); Filter(subs, p) else Filter(subs, p)
  }

  /** The camp section is shown for floods only. */
  predicate IsFlood(f: EntryForm) {
    f.dsType == Some(FloodType)
  }

  const HectareLabel: string := "फसल क्षति (हेक्\U{200D}टेयर में)"
  const KilometreLabel: string := "किलोमीटर"
  const CountLabel: string := "संख्\U{200D}या"

  /** The quantity field's label: hectares for crop damage (checked first),
      kilometres for the road subtype, a plain count otherwise. */
  function QuantityLabel(f: EntryForm): (r: string)
    ensures r == HectareLabel <==> f.dmType == Some(Stats.CropDamageType)
    ensures r == KilometreLabel <==> f.dmType != Some(Stats.CropDamageType) && f.dmSubtype == Some(Stats.RoadSubtype)
    ensures r == CountLabel <==> f.dmType != Some(Stats.CropDamageType) && f.dmSubtype != Some(Stats.RoadSubtype)
  {
    if f.dmType == Some(Stats.CropDamageType) then HectareLabel
    else if f.dmSubtype == Some(Stats.RoadSubtype) then KilometreLabel
    else CountLabel
  }

  // ---------------------------------------------------------------------------
  // Change handlers

  function SetTehsil(f: EntryForm, v: int): EntryForm { f.(tehCode := Some(v)) }
  function SetYear(f: EntryForm, v: int): EntryForm { f.(year := v) }
  function SetMonth(f: EntryForm, v: int): EntryForm { f.(month := v) }
  function SetDisasterSubtype(f: EntryForm, v: int): EntryForm { f.(dsSubtype := Some(v)) }
  function SetDamageSubtype(f: EntryForm, v: int): EntryForm { f.(dmSubtype := Some(v)) }
  function SetQuantity(f: EntryForm, v: int): EntryForm { f.(qty := v) }
  function SetCampName(f: EntryForm, v: string): EntryForm { f.(campName := Some(v)) }
  function SetCamps(f: EntryForm, v: int): EntryForm { f.(noOfCamps := Some(v)) }
  function SetPeoples(f: EntryForm, v: int): EntryForm { f.(noOfPeoples := Some(v)) }

  /** Picking a disaster type clears its subtype; leaving the flood type also
      clears the camp fields, while staying on it keeps them. */
  function SetDisasterType(f: EntryForm, v: int): (r: EntryForm)
    ensures r.dsType == Some(v) && r.dsSubtype.None?
    ensures v != FloodType ==> r.campName == Some("") && r.noOfCamps == Some(0) && r.noOfPeoples == Some(0)
    ensures v == FloodType ==> r.campName == f.campName && r.noOfCamps == f.noOfCamps && r.noOfPeoples == f.noOfPeoples
    ensures r.(dsType := f.dsType, dsSubtype := f.dsSubtype, campName := f.campName, noOfCamps := f.noOfCamps,
               noOfPeoples := f.noOfPeoples) == f
  {
    var flood := v == FloodType;
    f.(dsType := Some(v), dsSubtype := None,
       campName := if flood then f.campName else Some(""),
       noOfCamps := if flood then f.noOfCamps else Some(0),
       noOfPeoples := if flood then f.noOfPeoples else Some(0))
  }

  /** Picking a damage type clears the damage subtype and nothing else. */
  function SetDamageType(f: EntryForm, v: int): (r: EntryForm)
    ensures r.dmType == Some(v) && r.dmSubtype.None?
    ensures r.(dmType := f.dmType, dmSubtype := f.dmSubtype) == f
  {
    f.(dmType := Some(v), dmSubtype := None)
  }

  /** The damage subtype is absent, the empty option, or one offered for the
      selected damage type. */
  predicate DamageSubtypeFits(f: EntryForm, subs: seq<SubtypeEntry>) {
    f.dmSubtype.None? || f.dmSubtype == Some(0) ||
    exists s :: s in subs && s.id == f.dmSubtype.value && f.dmType == Some(s.typeId)
  }

  /** Used only through its dropdowns, the form keeps the damage subtype under
      the selected damage type: a type change clears the subtype, and a
      subtype is picked from the offered list. */
  lemma DropdownsKeepSubtypeFit(f: EntryForm, subs: seq<SubtypeEntry>, v: int, s: SubtypeEntry)
    requires DamageSubtypeFits(f, subs)
    ensures DamageSubtypeFits(SetDamageType(f, v), subs)
    ensures s in AvailableSubtypes(subs, f.dmType) ==> DamageSubtypeFits(SetDamageSubtype(f, s.id), subs)
    ensures DamageSubtypeFits(SetDamageSubtype(f, 0), subs)
    ensures DamageSubtypeFits(SetQuantity(f, v), subs) && DamageSubtypeFits(SetTehsil(f, v), subs)
    ensures DamageSubtypeFits(SetDisasterType(f, v), subs)
  {
  }

  // ---------------------------------------------------------------------------
  // Submission

  datatype SubmitResult = Rejected | Saved(incident: Incident, next: EntryForm)

  /** `Math.floor(draw * 10000)` for a draw in [0, 1). */
  function MockId(draw: real): (id: int)
    requires 0.0 <= draw < 1.0
    ensures 0 <= id < 10000
    ensures id as real <= draw * 10000.0 < id as real + 1.0
  {
    (draw * 10000.0).Floor
  }

  /** The incident a valid form turns into, with the drawn id. */
  function FormIncident(f: EntryForm, id: int): Incident
    requires f.tehCode.Some? && f.dsType.Some?
  {
    Incident(id, f.distCode, f.tehCode.value, f.dsType.value, f.dsSubtype, f.dmType, f.dmSubtype, Some(f.qty),
             f.month, f.year, f.isDeleted, f.campName, f.noOfCamps, f.noOfPeoples)
  }

  /** Submit: a missing or zero tehsil or disaster type rejects the form and
      keeps it; otherwise the incident is handed on with an id below 10000
      and the form is blanked. `draw` is `Math.random()` and `month` the
      clock's current month. */
  function Submit(f: EntryForm, user: User, draw: real, month: int): (r: SubmitResult)
    requires 0.0 <= draw < 1.0
    ensures r.Rejected? <==> !Truthy(f.tehCode) || !Truthy(f.dsType)
    ensures r.Saved? ==> 0 <= r.incident.id < 10000
    ensures r.Saved? ==> r.incident.tehCode == f.tehCode.value && r.incident.dsType == f.dsType.value
    ensures r.Saved? ==> r.incident.distCode == f.distCode && r.incident.year == f.year && r.incident.month == f.month
    ensures r.Saved? ==> r.incident.dmType == f.dmType && r.incident.dmSubtype == f.dmSubtype && r.incident.qty == Some(f.qty)
    ensures r.Saved? ==> r.incident.dsSubtype == f.dsSubtype && r.incident.isDeleted == f.isDeleted
    ensures r.Saved? ==> r.incident.campName == f.campName && r.incident.noOfCamps == f.noOfCamps &&
                         r.incident.noOfPeoples == f.noOfPeoples
    ensures r.Saved? ==> r.incident.id == MockId(draw)
    ensures r.Saved? ==> r.next == BlankForm(user, month)
  {
    if !Truthy(f.tehCode) || !Truthy(f.dsType) then Rejected
    else Saved(FormIncident(f, MockId(draw)), BlankForm(user, month))
  }

  /** A blank form cannot be submitted until a tehsil and a disaster type are
      picked; picking both (non-zero) makes it acceptable. */
  lemma BlankFormNeedsChoices(user: User, month: int, draw: real, teh: int, ds: int)
    requires 0.0 <= draw < 1.0
    ensures Submit(BlankForm(user, month), user, draw, month).Rejected?
    ensures teh != 0 && ds != 0 ==> Submit(SetDisasterType(SetTehsil(BlankForm(user, month), teh), ds), user, draw, month).Saved?
  {
  }

  /** The record a district officer saves lies in their own district and is
      not deleted, so it reaches their dashboard for its year. */
  lemma SavedIncidentInOwnDistrict(f: EntryForm, user: User, draw: real, month: int)
    requires 0.0 <= draw < 1.0
    requires f.distCode == UserDistrict(user) && !f.isDeleted
    requires Submit(f, user, draw, month).Saved?
    ensures var i := Submit(f, user, draw, month).incident;
            !i.isDeleted && (Truthy(user.distCode) ==> i.distCode == user.distCode.value)
  {
  }
}
