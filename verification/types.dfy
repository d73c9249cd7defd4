/** The record shapes the dashboard works on: users, districts, tehsils,
    incidents and the master taxonomy of disaster and damage types. */
module Types {
  import opened Base

  /** Role codes carried in `User.rollId`. */
  const AdminRole: int := 1
  const StateRole: int := 2
  const DistrictRole: int := 3

  /** A login account. District officers carry the district they report for;
      state and admin accounts usually carry none. */
  datatype User = User(
    acSno: int,
    userId: string,
    nameOfUser: string,
    displayName: string,
    designation: string,
    distCode: Option<int>,
    mobileNo: Option<string>,
    emailId: Option<string>,
    rollId: int)

  datatype District = District(
    sno: int,
    code: int,
    nameEn: string,
    nameHi: string,
    shortName: string)

  /** A sub-district unit; `distCode` names its parent district. */
  datatype Tehsil = Tehsil(
    sno: int,
    code: int,
    distCode: int,
    nameEn: string,
    nameHi: string)

  /** One reported event. The disaster type is always present; the disaster
      subtype and the damage classification may be absent. `qty` is absent
      when the quantity is missing or not a number. The camp fields are
      optional and only meaningful for floods. */
  datatype Incident = Incident(
    id: int,
    distCode: int,
    tehCode: int,
    dsType: int,
    dsSubtype: Option<int>,
    dmType: Option<int>,
    dmSubtype: Option<int>,
    qty: Option<int>,
    month: int,
    year: int,
    isDeleted: bool,
    campName: Option<string>,
    noOfCamps: Option<int>,
    noOfPeoples: Option<int>)

  /** A disaster or damage type of the master taxonomy. */
  datatype TypeEntry = TypeEntry(id: int, nameEn: string, nameHi: string)

  /** A subtype of the master taxonomy; `typeId` names its parent type. */
  datatype SubtypeEntry = SubtypeEntry(id: int, typeId: int, nameEn: string, nameHi: string)

  datatype MasterData = MasterData(
    disasterTypes: seq<TypeEntry>,
    disasterSubtypes: seq<SubtypeEntry>,
    damageTypes: seq<TypeEntry>,
    damageSubtypes: seq<SubtypeEntry>)

  // Field accessors, for grouping by key.
  function DsType(i: Incident): int { i.dsType }
  function DistCodeOf(i: Incident): int { i.distCode }
  function TehCodeOf(i: Incident): int { i.tehCode }
  function DistrictCode(d: District): int { d.code }
  function TehsilCode(t: Tehsil): int { t.code }

  /** JavaScript truthiness of a nullable number: present and non-zero. */
  predicate Truthy(n: Option<int>) {
    n.Some? && n.value != 0
  }
}
