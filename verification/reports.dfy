/** The report flattener: the district officer's tehsil report and the
    state-wide monitoring report. Both turn a flat incident list into ordered
    table rows grouped tehsil -> disaster type (and, state-wide, district ->
    tehsil -> disaster type), with the row-span bookkeeping a renderer needs
    to merge the grouping cells, plus a grand-totals row. */
module Reports {
  import opened Base
  import opened Types
  import opened Stats
  import opened Ordering
  import Dashboard

  /** The month selector: every month, or one month 1..12. */
  datatype MonthFilter = AllMonths | InMonth(month: int)

  /** The disaster-type selector of the monitoring report. */
  datatype TypeFilter = AllTypes | OnlyType(typeId: int)

  /** The monitoring report's mode. */
  datatype ReportType = Summary | Detailed

  /** The React key of a row: `${tehsil}-none` or `${tehsil}-${type}`. */
  datatype RowKey = NoneKey(tehCode: int) | TypeKey(tehCode: int, typeId: int)

  /** A row of a grouped report. The district fields are absent in the tehsil
      report; `isDistFirst` false stands for the source's unset flag. */
  datatype FlatRow = FlatRow(
    key: RowKey,
    distCode: Option<int>,
    distName: Option<string>,
    distSerial: Option<int>,
    tehCode: int,
    tehName: string,
    disasterTypeId: Option<int>,
    disasterTypeName: string,
    stats: ReportStats,
    distRowSpan: Option<int>,
    tehRowSpan: int,
    isDistFirst: bool,
    isTehFirst: bool)

  /** A row of the district-wise summary. */
  datatype SummaryRow = SummaryRow(distCode: int, sNo: int, distName: string, stats: ReportStats)

  function HasTypeId(v: int): TypeEntry -> bool {
    (e: TypeEntry) => e.id == v
  }

  /** `getDisasterName`: '-' for a missing or zero id, the Hindi name of the
      first taxonomy entry with that id, or 'Unknown'. */
  function GetDisasterName(types: seq<TypeEntry>, id: Option<int>): (r: string)
    ensures !Truthy(id) ==> r == "-"
    ensures Truthy(id) && (forall k :: 0 <= k < |types| ==> types[k].id != id.value) ==> r == "Unknown"
    ensures Truthy(id) ==> forall k ::
              (0 <= k < |types| && types[k].id == id.value && forall j :: 0 <= j < k ==> types[j].id != id.value)
              ==> r == types[k].nameHi
  {
    if !Truthy(id) then "-"
    else
      var found := FindIndex(types, HasTypeId(id.value));
      match found
      case Some(k) => types[k].nameHi
      case None => "Unknown"
  }

  // ---------------------------------------------------------------------------
  // Selection predicates

  /** Not deleted, in the selected year, and in the selected month (or any). */
  predicate InPeriod(i: Incident, year: int, month: MonthFilter) {
    !i.isDeleted && i.year == year && (month.AllMonths? || i.month == month.month)
  }

  /** The tehsil report's per-tehsil selection. */
  function TehsilSelect(tehCode: int, year: int, month: MonthFilter): Incident -> bool {
    (i: Incident) => i.tehCode == tehCode && InPeriod(i, year, month)
  }

  /** The tehsil report's grand-total selection: the user's district. */
  function UserDistrictSelect(distCode: Option<int>, year: int, month: MonthFilter): Incident -> bool {
    (i: Incident) => Some(i.distCode) == distCode && InPeriod(i, year, month)
  }

  predicate TypeMatches(i: Incident, tf: TypeFilter) {
    tf.AllTypes? || i.dsType == tf.typeId
  }

  /** The monitoring report's grand-total selection (all districts). */
  function StateSelect(year: int, month: MonthFilter, tf: TypeFilter): Incident -> bool {
    (i: Incident) => InPeriod(i, year, month) && TypeMatches(i, tf)
  }

  /** The monitoring report's per-district selection. */
  function DistrictSelect(distCode: int, year: int, month: MonthFilter, tf: TypeFilter): Incident -> bool {
    (i: Incident) => i.distCode == distCode && InPeriod(i, year, month) && TypeMatches(i, tf)
  }

  function TehsilOfDistrict(distCode: int): Tehsil -> bool {
    (t: Tehsil) => t.distCode == distCode
  }

  /** The disaster type of each incident, in order. */
  function DsTypes(xs: seq<Incident>): (r: seq<int>)
    ensures |r| == |xs|
    ensures forall k :: 0 <= k < |xs| ==> r[k] == xs[k].dsType
  {
    seq(|xs|, k requires 0 <= k < |xs| => xs[k].dsType)
  }

  // ---------------------------------------------------------------------------
  // One tehsil's rows

  /** The row a tehsil gets when nothing matched it. */
  function PlaceholderRow(t: Tehsil, dist: Option<District>): FlatRow {
    FlatRow(NoneKey(t.code),
            if dist.Some? then Some(dist.value.code) else None,
            if dist.Some? then Some(dist.value.nameHi) else None,
            None, t.code, t.nameHi, None, "-", CalculateStats([]), None, 1, false, true)
  }

  /** The row of the `index`-th of `count` distinct disaster types of a tehsil. */
  function TypeRow(t: Tehsil, pool: seq<Incident>, dist: Option<District>, types: seq<TypeEntry>,
                   typeId: int, index: int, count: int): FlatRow
  {
    FlatRow(TypeKey(t.code, typeId),
            if dist.Some? then Some(dist.value.code) else None,
            if dist.Some? then Some(dist.value.nameHi) else None,
            None, t.code, t.nameHi, Some(typeId), GetDisasterName(types, Some(typeId)),
            CalculateStats(Filter(pool, KeyIs(DsType, typeId))),
            None, if index == 0 then count else 0, false, index == 0)
  }

  /** The rows of one tehsil given the incidents selected for it: a single
      placeholder row when there are none, otherwise one row per distinct
      disaster type in first-occurrence order, the first row spanning them all. */
  function TehsilRows(t: Tehsil, pool: seq<Incident>, dist: Option<District>, types: seq<TypeEntry>): (rows: seq<FlatRow>)
    ensures 1 <= |rows|
    ensures rows[0].isTehFirst && rows[0].tehRowSpan == |rows|
    ensures forall k :: 1 <= k < |rows| ==> !rows[k].isTehFirst && rows[k].tehRowSpan == 0
    ensures forall k :: 0 <= k < |rows| ==> rows[k].tehCode == t.code && rows[k].tehName == t.nameHi
    ensures forall k :: 0 <= k < |rows| ==> !rows[k].isDistFirst && rows[k].distRowSpan.None? && rows[k].distSerial.None?
    ensures forall k :: 0 <= k < |rows| ==> rows[k].distCode == (if dist.Some? then Some(dist.value.code) else None)
    ensures forall k :: 0 <= k < |rows| ==> rows[k].distName == (if dist.Some? then Some(dist.value.nameHi) else None)
    ensures pool == [] ==> |rows| == 1 && rows[0].disasterTypeId.None? && rows[0].disasterTypeName == "-"
                           && rows[0].stats == ZeroStats && rows[0].tehRowSpan == 1
    ensures pool != [] ==> |rows| == |Distinct(DsTypes(pool))|
    ensures pool != [] ==> forall k :: 0 <= k < |rows| ==>
              rows[k].disasterTypeId == Some(Distinct(DsTypes(pool))[k]) &&
              rows[k].stats == CalculateStats(Filter(pool, KeyIs(DsType, Distinct(DsTypes(pool))[k])))
  {
    if |pool| == 0 then [PlaceholderRow(t, dist)]
    else
      var uniqueTypes := Distinct(DsTypes(pool));
      TypeRows(t, pool, dist, types, uniqueTypes)
  }

  /** One row per listed disaster type, the first spanning them all. */
  function TypeRows(t: Tehsil, pool: seq<Incident>, dist: Option<District>, types: seq<TypeEntry>,
                    uniqueTypes: seq<int>): (rows: seq<FlatRow>)
    requires |uniqueTypes| >= 1
    ensures |rows| == |uniqueTypes|
    ensures rows[0].isTehFirst && rows[0].tehRowSpan == |rows|
    ensures forall k :: 1 <= k < |rows| ==> !rows[k].isTehFirst && rows[k].tehRowSpan == 0
    ensures forall k :: 0 <= k < |rows| ==> rows[k].tehCode == t.code && rows[k].tehName == t.nameHi
    ensures forall k :: 0 <= k < |rows| ==> !rows[k].isDistFirst && rows[k].distRowSpan.None? && rows[k].distSerial.None?
    ensures forall k :: 0 <= k < |rows| ==> rows[k].distCode == (if dist.Some? then Some(dist.value.code) else None)
    ensures forall k :: 0 <= k < |rows| ==> rows[k].distName == (if dist.Some? then Some(dist.value.nameHi) else None)
    ensures forall k :: 0 <= k < |rows| ==>
              rows[k].disasterTypeId == Some(uniqueTypes[k]) &&
              rows[k].stats == CalculateStats(Filter(pool, KeyIs(DsType, uniqueTypes[k])))
  {
    seq(|uniqueTypes|, k requires 0 <= k < |uniqueTypes| =>
      TypeRow(t, pool, dist, types, uniqueTypes[k], k, |uniqueTypes|))
  }

  /** The rows of a non-empty tehsil name exactly the disaster types that occur
      among its incidents, each once, in the order they first occur. */
  lemma TehsilRowTypes(t: Tehsil, pool: seq<Incident>, dist: Option<District>, types: seq<TypeEntry>)
    requires pool != []
    ensures var rows := TehsilRows(t, pool, dist, types);
            && (forall k :: 0 <= k < |rows| ==> rows[k].disasterTypeId.Some?)
            && (forall v :: (exists k :: 0 <= k < |rows| && rows[k].disasterTypeId == Some(v)) <==>
                            (exists m :: 0 <= m < |pool| && pool[m].dsType == v))
            && (forall i, j :: 0 <= i < j < |rows| ==> rows[i].disasterTypeId != rows[j].disasterTypeId)
            && (forall i, j :: 0 <= i < j < |rows| ==>
                  FirstIndex(DsTypes(pool), rows[i].disasterTypeId.value) <
                  FirstIndex(DsTypes(pool), rows[j].disasterTypeId.value))
  {
    var rows := TehsilRows(t, pool, dist, types);
    var ds := DsTypes(pool);
    var u := Distinct(ds);
    DistinctFirstOccurrenceOrder(ds);
    forall v
      ensures (exists k :: 0 <= k < |rows| && rows[k].disasterTypeId == Some(v)) <==>
              (exists m :: 0 <= m < |pool| && pool[m].dsType == v)
    {
      RowIdsCoverType(rows, u, pool, v);
    }
  }

  /** Rows labelled with the types of `u`, which holds exactly the incidents'
      disaster types, name exactly the types that occur. */
  lemma RowIdsCoverType(rows: seq<FlatRow>, u: seq<int>, pool: seq<Incident>, v: int)
    requires |rows| == |u| && forall k :: 0 <= k < |rows| ==> rows[k].disasterTypeId == Some(u[k])
    requires forall x :: x in u <==> x in DsTypes(pool)
    ensures (exists k :: 0 <= k < |rows| && rows[k].disasterTypeId == Some(v)) <==>
            (exists m :: 0 <= m < |pool| && pool[m].dsType == v)
  {
    var ds := DsTypes(pool);
    if exists m :: 0 <= m < |pool| && pool[m].dsType == v {
      var m :| 0 <= m < |pool| && pool[m].dsType == v;
      assert ds[m] == v;
      assert v in u;
      var k :| 0 <= k < |u| && u[k] == v;
      assert rows[k].disasterTypeId == Some(v);
    }
    if exists k :: 0 <= k < |rows| && rows[k].disasterTypeId == Some(v) {
      var k :| 0 <= k < |rows| && rows[k].disasterTypeId == Some(v);
      assert u[k] == v && v in ds;
      var m :| 0 <= m < |ds| && ds[m] == v;
      assert pool[m].dsType == v;
    }
  }

  /** Bucket `b` of a row. */
  function RowBucket(b: Bucket): FlatRow -> int {
    (r: FlatRow) => Get(r.stats, b)
  }

  /** Splitting a tehsil's incidents by disaster type loses and duplicates
      nothing: its rows add up to the tehsil's own totals. */
  lemma TehsilRowsTotal(t: Tehsil, pool: seq<Incident>, dist: Option<District>, types: seq<TypeEntry>, b: Bucket)
    ensures Sum(TehsilRows(t, pool, dist, types), RowBucket(b)) == Get(CalculateStats(pool), b)
  {
    var rows := TehsilRows(t, pool, dist, types);
    if pool == [] {
      assert rows[1..] == [];
    } else {
      var ds := DsTypes(pool);
      var u := Distinct(ds);
      TypeRowsTotal(t, pool, dist, types, u, b);
      forall k | 0 <= k < |pool|
        ensures DsType(pool[k]) in u
      {
        assert ds[k] == DsType(pool[k]);
      }
      SumByKeys(u, pool, DsType, BucketQty(b));
    }
  }

  /** The type rows add up to the listed types' totals. */
  lemma TypeRowsTotal(t: Tehsil, pool: seq<Incident>, dist: Option<District>, types: seq<TypeEntry>,
                      u: seq<int>, b: Bucket)
    requires |u| >= 1
    ensures Sum(TypeRows(t, pool, dist, types, u), RowBucket(b)) == Sum(u, KeyTotal(pool, DsType, BucketQty(b)))
  {
    var rows := TypeRows(t, pool, dist, types, u);
    var f := KeyTotal(pool, DsType, BucketQty(b));
    forall k | 0 <= k < |rows|
      ensures RowBucket(b)(rows[k]) == f(u[k])
    {
    }
    SumIndexwise(rows, u, RowBucket(b), f);
  }

  // ---------------------------------------------------------------------------
  // Row-span tiling

  /** A grouping cell: whether this row opens a group, and the group's row span. */
  datatype Mark = Mark(first: bool, span: int)

  /** The group opened at row `i` spans at least one row, stays inside the
      table, contains no other group opener, and is followed by an opener
      or by the end of the table. */
  predicate GroupOk(ms: seq<Mark>, i: int)
    requires 0 <= i < |ms|
  {
    && 1 <= ms[i].span
    && i + ms[i].span <= |ms|
    && (forall j :: i < j < i + ms[i].span ==> !ms[j].first)
    && (i + ms[i].span < |ms| ==> ms[i + ms[i].span].first)
  }

  /** The merged cells tile the column: every row lies in exactly one group. */
  predicate Tiled(ms: seq<Mark>) {
    && (|ms| > 0 ==> ms[0].first)
    && forall i {:trigger GroupOk(ms, i)} :: 0 <= i < |ms| && ms[i].first ==> GroupOk(ms, i)
  }

  /** A group of the left part keeps its shape in the concatenation: a group
      ending at the seam is followed by the right part's first opener. */
  lemma GroupOkLeft(a: seq<Mark>, b: seq<Mark>, i: nat)
    requires Tiled(a) && Tiled(b) && i < |a| && a[i].first
    ensures GroupOk(a + b, i)
  {
    var ab := a + b;
    assert GroupOk(a, i);
    forall j | i < j < i + ab[i].span
      ensures !ab[j].first
    {
      assert ab[j] == a[j];
    }
    if i + a[i].span < |ab| {
      if i + a[i].span < |a| {
        assert ab[i + a[i].span] == a[i + a[i].span];
      } else {
        assert ab[|a|] == b[0];
      }
    }
  }

  /** A group of the right part keeps its shape, shifted past the left part. */
  lemma GroupOkRight(a: seq<Mark>, b: seq<Mark>, i: nat)
    requires Tiled(b) && |a| <= i < |a| + |b| && b[i - |a|].first
    ensures GroupOk(a + b, i)
  {
    var ab := a + b;
    var i' := i - |a|;
    assert GroupOk(b, i');
    var sp := b[i'].span;
    assert ab[i] == b[i'];
    assert 1 <= sp && i' + sp <= |b|;
    forall j | i < j < i + sp
      ensures !ab[j].first
    {
      assert ab[j] == b[j - |a|];
      assert i' < j - |a| < i' + sp;
    }
    if i + sp < |ab| {
      assert i' + sp < |b|;
      assert ab[i + sp] == b[i' + sp];
    }
  }

  lemma TiledAppend(a: seq<Mark>, b: seq<Mark>)
    requires Tiled(a) && Tiled(b)
    ensures Tiled(a + b)
  {
    var ab := a + b;
    forall i | 0 <= i < |ab| && ab[i].first
      ensures GroupOk(ab, i)
    {
      if i < |a| {
        assert ab[i] == a[i];
        GroupOkLeft(a, b, i);
      } else {
        assert ab[i] == b[i - |a|];
        GroupOkRight(a, b, i);
      }
    }
    if |ab| > 0 {
      if |a| > 0 {
        assert ab[0] == a[0];
      } else {
        assert ab[0] == b[0];
      }
    }
  }

  /** A group opener spanning the whole block, followed by non-openers. */
  lemma TiledBlock(ms: seq<Mark>)
    requires |ms| >= 1 && ms[0] == Mark(true, |ms|)
    requires forall k :: 1 <= k < |ms| ==> !ms[k].first
    ensures Tiled(ms)
  {
  }

  function TehMarks(rows: seq<FlatRow>): (ms: seq<Mark>)
    ensures |ms| == |rows|
    ensures forall k :: 0 <= k < |rows| ==> ms[k] == Mark(rows[k].isTehFirst, rows[k].tehRowSpan)
  {
    seq(|rows|, k requires 0 <= k < |rows| => Mark(rows[k].isTehFirst, rows[k].tehRowSpan))
  }

  lemma TehMarksAppend(a: seq<FlatRow>, b: seq<FlatRow>)
    ensures TehMarks(a + b) == TehMarks(a) + TehMarks(b)
  {
  }

  function DistMarks(rows: seq<FlatRow>): (ms: seq<Mark>)
    ensures |ms| == |rows|
    ensures forall k :: 0 <= k < |rows| ==> ms[k] == Mark(rows[k].isDistFirst, rows[k].distRowSpan.GetOr(0))
  {
    seq(|rows|, k requires 0 <= k < |rows| => Mark(rows[k].isDistFirst, rows[k].distRowSpan.GetOr(0)))
  }

  lemma TehsilRowsTiled(t: Tehsil, pool: seq<Incident>, dist: Option<District>, types: seq<TypeEntry>)
    ensures Tiled(TehMarks(TehsilRows(t, pool, dist, types)))
  {
    TiledBlock(TehMarks(TehsilRows(t, pool, dist, types)));
  }

  // ---------------------------------------------------------------------------
  // Tehsil report (district officers)

  /** The tehsil report's rows for the given tehsils, in the given order. */
  function TehsilReportRows(ts: seq<Tehsil>, incidents: seq<Incident>, year: int, month: MonthFilter,
                            types: seq<TypeEntry>): (rows: seq<FlatRow>)
    ensures |rows| >= |ts|
    ensures OpenerCodes(rows) == Keys(ts, TehsilCode)
    ensures forall k :: 0 <= k < |rows| ==> rows[k].tehCode in Keys(ts, TehsilCode)
    ensures forall k :: 0 <= k < |rows| ==> rows[k].distCode.None? && !rows[k].isDistFirst
  {
    if ts == [] then []
    else
      var pool := Filter(incidents, TehsilSelect(ts[0].code, year, month));
      var head := TehsilRows(ts[0], pool, None, types);
      var rest := TehsilReportRows(ts[1..], incidents, year, month, types);
      OutsideDistrictsAppend(head, rest);
      TehsilRowsOpener(ts[0], pool, None, types);
      ConsBlock(ts, head, rest);
      ConsBlockCodes(ts, head, rest);
      head + rest
  }

  /** The tehsil codes of the rows that open a tehsil's block, in order. */
  function OpenerCodes(rows: seq<FlatRow>): seq<int> {
    if rows == [] then []
    else (if rows[0].isTehFirst then [rows[0].tehCode] else []) + OpenerCodes(rows[1..])
  }

  lemma {:induction false} OpenerCodesAppend(a: seq<FlatRow>, b: seq<FlatRow>)
    ensures OpenerCodes(a + b) == OpenerCodes(a) + OpenerCodes(b)
  {
    if a == [] {
      assert a + b == b;
    } else {
      assert (a + b)[1..] == a[1..] + b;
      OpenerCodesAppend(a[1..], b);
    }
  }

  lemma {:induction false} NoOpeners(rows: seq<FlatRow>)
    requires forall k :: 0 <= k < |rows| ==> !rows[k].isTehFirst
    ensures OpenerCodes(rows) == []
  {
    if rows != [] {
      NoOpeners(rows[1..]);
    }
  }

  /** A tehsil's rows open exactly one block, its own. */
  lemma TehsilRowsOpener(t: Tehsil, pool: seq<Incident>, dist: Option<District>, types: seq<TypeEntry>)
    ensures OpenerCodes(TehsilRows(t, pool, dist, types)) == [t.code]
  {
    var rows := TehsilRows(t, pool, dist, types);
    NoOpeners(rows[1..]);
  }

  /** A block opened by the first tehsil alone, followed by rows whose blocks
      are those of the remaining tehsils, has the blocks of all the tehsils. */
  lemma ConsBlock(ts: seq<Tehsil>, head: seq<FlatRow>, rest: seq<FlatRow>)
    requires ts != []
    requires OpenerCodes(head) == [ts[0].code] && OpenerCodes(rest) == Keys(ts[1..], TehsilCode)
    ensures OpenerCodes(head + rest) == Keys(ts, TehsilCode)
  {
    OpenerCodesAppend(head, rest);
    assert Keys(ts, TehsilCode) == [ts[0].code] + Keys(ts[1..], TehsilCode);
  }

  /** Rows of the first tehsil followed by rows of the remaining tehsils are
      all rows of the tehsils. */
  lemma ConsBlockCodes(ts: seq<Tehsil>, head: seq<FlatRow>, rest: seq<FlatRow>)
    requires ts != []
    requires forall k :: 0 <= k < |head| ==> head[k].tehCode == ts[0].code
    requires forall k :: 0 <= k < |rest| ==> rest[k].tehCode in Keys(ts[1..], TehsilCode)
    ensures forall k :: 0 <= k < |head + rest| ==> (head + rest)[k].tehCode in Keys(ts, TehsilCode)
  {
    var codes := Keys(ts, TehsilCode);
    assert codes == [ts[0].code] + Keys(ts[1..], TehsilCode);
    forall k | 0 <= k < |head + rest|
      ensures (head + rest)[k].tehCode in codes
    {
      if k < |head| {
        assert (head + rest)[k] == head[k];
        assert codes[0] == ts[0].code;
      } else {
        assert (head + rest)[k] == rest[k - |head|];
      }
    }
  }

  /** Every opener code belongs to a row that opens a block. */
  lemma {:induction false} OpenerHasRow(rows: seq<FlatRow>, j: int)
    requires 0 <= j < |OpenerCodes(rows)|
    ensures exists k :: 0 <= k < |rows| && rows[k].isTehFirst && rows[k].tehCode == OpenerCodes(rows)[j]
  {
    var head := if rows[0].isTehFirst then [rows[0].tehCode] else [];
    if j < |head| {
      assert rows[0].isTehFirst && rows[0].tehCode == OpenerCodes(rows)[j];
    } else {
      OpenerHasRow(rows[1..], j - |head|);
      var k :| 0 <= k < |rows[1..]| && rows[1..][k].isTehFirst && rows[1..][k].tehCode == OpenerCodes(rows[1..])[j - |head|];
      assert rows[k + 1] == rows[1..][k];
    }
  }

  /** Each listed tehsil opens a block of rows. */
  lemma TehsilsHaveBlocks(ts: seq<Tehsil>, rows: seq<FlatRow>)
    requires OpenerCodes(rows) == Keys(ts, TehsilCode)
    ensures forall t :: t in ts ==> exists k :: 0 <= k < |rows| && rows[k].tehCode == t.code && rows[k].isTehFirst
  {
    forall t | t in ts
      ensures exists k :: 0 <= k < |rows| && rows[k].tehCode == t.code && rows[k].isTehFirst
    {
      var j :| 0 <= j < |ts| && ts[j] == t;
      OpenerHasRow(rows, j);
    }
  }

  /** Rows that carry no district cell and open no district group. */
  predicate OutsideDistricts(rows: seq<FlatRow>) {
    forall k :: 0 <= k < |rows| ==> rows[k].distCode.None? && !rows[k].isDistFirst
  }

  lemma OutsideDistrictsAppend(a: seq<FlatRow>, b: seq<FlatRow>)
    requires OutsideDistricts(a) && OutsideDistricts(b)
    ensures OutsideDistricts(a + b)
  {
  }

  datatype TehsilReportOutput = TehsilReportOutput(rows: seq<FlatRow>, grandTotals: ReportStats)

  /** The tehsils of the user's district, in master order (`t.Dist_Code ===
      user.Dist_Code`: a user without a district has none). */
  function UserTehsils(tehsils: seq<Tehsil>, user: User): seq<Tehsil> {
    Filter(tehsils, (t: Tehsil) => user.distCode == Some(t.distCode))
  }

  /** The tehsil report: the rows of every tehsil of the user's district and the
      grand totals over the user's district for the period. */
  function TehsilReport(tehsils: seq<Tehsil>, user: User, incidents: seq<Incident>, year: int,
                        month: MonthFilter, types: seq<TypeEntry>): (out: TehsilReportOutput)
    ensures out.grandTotals == CalculateStats(Filter(incidents, UserDistrictSelect(user.distCode, year, month)))
    ensures Tiled(TehMarks(out.rows))
    ensures |out.rows| >= |UserTehsils(tehsils, user)|
    ensures OpenerCodes(out.rows) == Keys(UserTehsils(tehsils, user), TehsilCode)
    ensures forall t :: t in UserTehsils(tehsils, user) ==>
              exists k :: 0 <= k < |out.rows| && out.rows[k].tehCode == t.code && out.rows[k].isTehFirst
    ensures forall k :: 0 <= k < |out.rows| ==> out.rows[k].tehCode in Keys(UserTehsils(tehsils, user), TehsilCode)
  {
    var userTehsils := UserTehsils(tehsils, user);
    var rows := TehsilReportRows(userTehsils, incidents, year, month, types);
    TehsilReportTiled(userTehsils, incidents, year, month, types);
    TehsilsHaveBlocks(userTehsils, rows);
    TehsilReportOutput(rows, CalculateStats(Filter(incidents, UserDistrictSelect(user.distCode, year, month))))
  }

  /** The tehsil name cells of the tehsil report tile the table. */
  lemma {:induction false} TehsilReportTiled(ts: seq<Tehsil>, incidents: seq<Incident>, year: int, month: MonthFilter,
                                             types: seq<TypeEntry>)
    ensures Tiled(TehMarks(TehsilReportRows(ts, incidents, year, month, types)))
  {
    if ts != [] {
      var pool := Filter(incidents, TehsilSelect(ts[0].code, year, month));
      var head := TehsilRows(ts[0], pool, None, types);
      var rest := TehsilReportRows(ts[1..], incidents, year, month, types);
      assert TehsilReportRows(ts, incidents, year, month, types) == head + rest;
      TehsilRowsTiled(ts[0], pool, None, types);
      TehsilReportTiled(ts[1..], incidents, year, month, types);
      TehMarksAppend(head, rest);
      TiledAppend(TehMarks(head), TehMarks(rest));
    }
  }

  /** Bucket `b` of the incidents the tehsil report selects for a tehsil. */
  function TehsilBucket(incidents: seq<Incident>, year: int, month: MonthFilter, b: Bucket): Tehsil -> int {
    (t: Tehsil) => Get(CalculateStats(Filter(incidents, TehsilSelect(t.code, year, month))), b)
  }

  /** The tehsil report's rows add up, bucket by bucket, to the tehsils' own totals. */
  lemma {:induction false} TehsilReportRowsTotal(ts: seq<Tehsil>, incidents: seq<Incident>, year: int,
                                                 month: MonthFilter, types: seq<TypeEntry>, b: Bucket)
    ensures Sum(TehsilReportRows(ts, incidents, year, month, types), RowBucket(b))
            == Sum(ts, TehsilBucket(incidents, year, month, b))
  {
    if ts != [] {
      var pool := Filter(incidents, TehsilSelect(ts[0].code, year, month));
      var head := TehsilRows(ts[0], pool, None, types);
      var rest := TehsilReportRows(ts[1..], incidents, year, month, types);
      TehsilRowsTotal(ts[0], pool, None, types, b);
      TehsilReportRowsTotal(ts[1..], incidents, year, month, types, b);
      SumAppend(head, rest, RowBucket(b));
    }
  }

  /** The rows are selected by tehsil code and the grand totals by the user's
      district, so the two agree only when the user's tehsils have distinct
      codes, cover every incident counted for the district, and hold no
      in-period incident recorded under another district. */
  predicate UserTehsilsCover(tehsils: seq<Tehsil>, user: User, incidents: seq<Incident>, year: int,
                             month: MonthFilter)
  {
    var codes := Keys(UserTehsils(tehsils, user), TehsilCode);
    && NoDuplicates(codes)
    && (forall i :: i in Filter(incidents, UserDistrictSelect(user.distCode, year, month)) ==> i.tehCode in codes)
    && (forall i :: i in incidents && InPeriod(i, year, month) && i.tehCode in codes ==> Some(i.distCode) == user.distCode)
  }

  /** When no in-period incident of one of the tehsils lies outside the user's
      district, a tehsil's selection is the district's selection narrowed to
      the tehsil. */
  lemma TehsilPoolOfSelection(incidents: seq<Incident>, distCode: Option<int>, c: int, codes: seq<int>, year: int,
                              month: MonthFilter)
    requires c in codes
    requires forall i :: i in incidents && InPeriod(i, year, month) && i.tehCode in codes ==> Some(i.distCode) == distCode
    ensures Filter(incidents, TehsilSelect(c, year, month))
            == Filter(Filter(incidents, UserDistrictSelect(distCode, year, month)), KeyIs(TehCodeOf, c))
  {
    forall m | 0 <= m < |incidents|
      ensures TehsilSelect(c, year, month)(incidents[m])
              == (UserDistrictSelect(distCode, year, month)(incidents[m]) && KeyIs(TehCodeOf, c)(incidents[m]))
    {
      var i := incidents[m];
      assert i in incidents;
      assert TehCodeOf(i) == i.tehCode;
    }
    FilterFilter(incidents, UserDistrictSelect(distCode, year, month), KeyIs(TehCodeOf, c), TehsilSelect(c, year, month));
  }

  /** The tehsil report's rows add up to its grand-total row when the user's
      tehsils cover the district's incidents and nothing else. */
  lemma TehsilReportAddsUp(tehsils: seq<Tehsil>, user: User, incidents: seq<Incident>, year: int,
                           month: MonthFilter, types: seq<TypeEntry>, b: Bucket)
    requires UserTehsilsCover(tehsils, user, incidents, year, month)
    ensures var out := TehsilReport(tehsils, user, incidents, year, month, types);
            Sum(out.rows, RowBucket(b)) == Get(out.grandTotals, b)
  {
    var ts := UserTehsils(tehsils, user);
    var codes := Keys(ts, TehsilCode);
    var sel := Filter(incidents, UserDistrictSelect(user.distCode, year, month));
    var f := KeyTotal(sel, TehCodeOf, BucketQty(b));
    TehsilReportRowsTotal(ts, incidents, year, month, types, b);
    forall k | 0 <= k < |ts|
      ensures TehsilBucket(incidents, year, month, b)(ts[k]) == f(codes[k])
    {
      TehsilPoolOfSelection(incidents, user.distCode, ts[k].code, codes, year, month);
    }
    SumIndexwise(ts, codes, TehsilBucket(incidents, year, month, b), f);
    forall m | 0 <= m < |sel|
      ensures TehCodeOf(sel[m]) in codes
    {
      assert sel[m] in sel;
    }
    SumByKeys(codes, sel, TehCodeOf, BucketQty(b));
  }

  // ---------------------------------------------------------------------------
  // Monitoring report (state and admin)

  function DistNameHi(d: District): string { d.nameHi }

  /** Districts in name order (`localeCompare` on the Hindi name). */
  function SortedDistricts(districts: seq<District>): (r: seq<District>)
    ensures multiset(r) == multiset(districts)
    ensures SortedBy(r, DistNameHi)
  {
    SortBy(districts, DistNameHi)
  }

  /** The incidents of one district selected by the period and type filters. */
  function DistrictPool(incidents: seq<Incident>, distCode: int, year: int, month: MonthFilter,
                        tf: TypeFilter): seq<Incident>
  {
    Filter(incidents, DistrictSelect(distCode, year, month, tf))
  }

  /** The district-wise summary: one row per district, numbered from 1. */
  function SummaryRows(sorted: seq<District>, incidents: seq<Incident>, year: int, month: MonthFilter,
                       tf: TypeFilter): (rows: seq<SummaryRow>)
    ensures |rows| == |sorted|
    ensures forall k :: 0 <= k < |rows| ==>
              rows[k].sNo == k + 1 && rows[k].distCode == sorted[k].code && rows[k].distName == sorted[k].nameHi
    ensures forall k :: 0 <= k < |rows| ==>
              rows[k].stats == CalculateStats(Filter(Filter(incidents, StateSelect(year, month, tf)),
                                                     KeyIs(DistCodeOf, sorted[k].code)))
  {
    DistrictPoolsOfSelection(sorted, incidents, year, month, tf);
    seq(|sorted|, k requires 0 <= k < |sorted| =>
      SummaryRow(sorted[k].code, k + 1, sorted[k].nameHi,
                 CalculateStats(DistrictPool(incidents, sorted[k].code, year, month, tf))))
  }

  /** The rows of the given tehsils of district `d`, each tehsil taking its
      incidents from the district's selection. */
  function TehsilBlocks(dts: seq<Tehsil>, distIncidents: seq<Incident>, d: District,
                        types: seq<TypeEntry>): (rows: seq<FlatRow>)
    ensures |rows| >= |dts|
    ensures OpenerCodes(rows) == Keys(dts, TehsilCode)
    ensures forall k :: 0 <= k < |rows| ==>
              && !rows[k].isDistFirst && rows[k].distRowSpan.None? && rows[k].distSerial.None?
              && rows[k].distCode == Some(d.code) && rows[k].distName == Some(d.nameHi)
  {
    if dts == [] then []
    else
      var pool := Filter(distIncidents, KeyIs(TehCodeOf, dts[0].code));
      var head := TehsilRows(dts[0], pool, Some(d), types);
      var rest := TehsilBlocks(dts[1..], distIncidents, d, types);
      TehsilRowsOpener(dts[0], pool, Some(d), types);
      ConsBlock(dts, head, rest);
      head + rest
  }

  /** The unmarked rows of one district: empty when it has no tehsils. */
  function DistrictRows(d: District, tehsils: seq<Tehsil>, incidents: seq<Incident>, year: int,
                        month: MonthFilter, tf: TypeFilter, types: seq<TypeEntry>): (rows: seq<FlatRow>)
    ensures rows == [] <==> Filter(tehsils, TehsilOfDistrict(d.code)) == []
    ensures forall k :: 0 <= k < |rows| ==>
              && !rows[k].isDistFirst && rows[k].distRowSpan.None? && rows[k].distSerial.None?
              && rows[k].distCode == Some(d.code) && rows[k].distName == Some(d.nameHi)
  {
    var distTehsils := Filter(tehsils, TehsilOfDistrict(d.code));
    if |distTehsils| == 0 then []
    else TehsilBlocks(distTehsils, DistrictPool(incidents, d.code, year, month, tf), d, types)
  }

  /** Marks the first row of a district: opener, span of the whole district, serial. */
  function MarkDistrictFirst(rows: seq<FlatRow>, serial: int): (r: seq<FlatRow>)
    requires rows != []
    ensures |r| == |rows|
    ensures r[0].isDistFirst && r[0].distRowSpan == Some(|rows|) && r[0].distSerial == Some(serial)
    ensures forall k :: 0 <= k < |r| ==>
              && r[k].stats == rows[k].stats && r[k].distCode == rows[k].distCode && r[k].distName == rows[k].distName
              && r[k].isTehFirst == rows[k].isTehFirst && r[k].tehRowSpan == rows[k].tehRowSpan
    ensures forall k :: 1 <= k < |r| ==> r[k] == rows[k]
  {
    rows[0 := rows[0].(isDistFirst := true, distRowSpan := Some(|rows|), distSerial := Some(serial))]
  }

  /** The unmarked rows of each district under the given selection. */
  function DistrictRowsOf(tehsils: seq<Tehsil>, incidents: seq<Incident>, year: int, month: MonthFilter,
                          tf: TypeFilter, types: seq<TypeEntry>): District -> seq<FlatRow>
  {
    (d: District) => DistrictRows(d, tehsils, incidents, year, month, tf, types)
  }

  /** The detailed report from the district at hand onwards, given each
      district's unmarked rows; `serial` is the serial number the next
      district with rows receives. A district without rows is skipped and
      does not consume a serial number. */
  function DetailedRows(sorted: seq<District>, rowsOf: District -> seq<FlatRow>, serial: int): seq<FlatRow>
  {
    if sorted == [] then []
    else
      var districtRows := rowsOf(sorted[0]);
      if |districtRows| > 0 then
        MarkDistrictFirst(districtRows, serial) + DetailedRows(sorted[1..], rowsOf, serial + 1)
      else
        DetailedRows(sorted[1..], rowsOf, serial)
  }

  datatype MonitoringTable = SummaryTable(summary: seq<SummaryRow>) | DetailedTable(detailed: seq<FlatRow>)

  datatype MonitoringOutput = MonitoringOutput(
    table: MonitoringTable,
    grandTotals: ReportStats,
    showDisasterColumn: bool,
    grandTotalColSpan: int)

  /** The disaster column is shown only in the detailed mode with every disaster type selected. */
  function ShowDisasterColumn(rt: ReportType, tf: TypeFilter): bool {
    rt.Detailed? && tf.AllTypes?
  }

  /** The width of the grand-total label cell: serial and district, plus the
      tehsil column in the detailed mode, plus the disaster column when shown. */
  function GrandTotalColSpan(rt: ReportType, tf: TypeFilter): (span: int)
    ensures span == 2 <==> rt.Summary?
    ensures span == 4 <==> ShowDisasterColumn(rt, tf)
    ensures span == 3 <==> rt.Detailed? && !ShowDisasterColumn(rt, tf)
  {
    match rt
    case Summary => 2
    case Detailed => if tf.AllTypes? then 4 else 3
  }

  /** The six bucket column headings, in bucket order. */
  const BucketHeaders: seq<string> := ["जनहानि संख्या", "मकान क्षति संख्या", "पशु हानि संख्या",
                                       "फसल क्षति (हेक्टेयर में)", "शासकीय परिसंपत्ति क्षति हानि",
                                       "सड़क क्षति (कि.मी. में)"]

  /** The table's header row: serial and district, the tehsil column in the
      detailed mode, the disaster column when shown, then the six buckets. */
  function MonitoringHeader(rt: ReportType, tf: TypeFilter): (h: seq<string>)
    ensures |h| == GrandTotalColSpan(rt, tf) + |BucketHeaders|
    ensures h[..2] == ["क्र.", "जिले का नाम"] && h[|h| - |BucketHeaders|..] == BucketHeaders
    ensures "तहसील का नाम" in h <==> rt.Detailed?
    ensures "आपदा विवरण" in h <==> rt.Detailed? && tf.AllTypes?
  {
    ["क्र.", "जिले का नाम"]
    + (if rt.Detailed? then ["तहसील का नाम"] else [])
    + (if ShowDisasterColumn(rt, tf) then ["आपदा विवरण"] else [])
    + BucketHeaders
  }

  /** The monitoring report. */
  function MonitoringReport(districts: seq<District>, tehsils: seq<Tehsil>, incidents: seq<Incident>,
                            year: int, month: MonthFilter, rt: ReportType, tf: TypeFilter,
                            types: seq<TypeEntry>): (out: MonitoringOutput)
    ensures out.grandTotals == CalculateStats(Filter(incidents, StateSelect(year, month, tf)))
    ensures rt.Summary? <==> out.table.SummaryTable?
    ensures rt.Summary? ==> |out.table.summary| == |districts|
    ensures rt.Summary? ==> out.table.summary == SummaryRows(SortedDistricts(districts), incidents, year, month, tf)
    ensures out.showDisasterColumn <==> rt.Detailed? && tf.AllTypes?
    ensures out.grandTotalColSpan == GrandTotalColSpan(rt, tf)
  {
    var sorted := SortedDistricts(districts);
    var table :=
      if rt.Summary? then SummaryTable(SummaryRows(sorted, incidents, year, month, tf))
      else DetailedTable(DetailedRows(sorted, DistrictRowsOf(tehsils, incidents, year, month, tf, types), 1));
    MonitoringOutput(table, CalculateStats(Filter(incidents, StateSelect(year, month, tf))),
                     ShowDisasterColumn(rt, tf), GrandTotalColSpan(rt, tf))
  }

  /** The header label of the selected disaster type: 'सभी' (all), the Hindi
      name of the first matching taxonomy entry, or 'Unknown'. */
  function SelectedDisasterName(types: seq<TypeEntry>, tf: TypeFilter): (r: string)
    ensures tf.AllTypes? ==> r == "सभी"
    ensures tf.OnlyType? && (forall k :: 0 <= k < |types| ==> types[k].id != tf.typeId) ==> r == "Unknown"
    ensures tf.OnlyType? ==> forall k ::
              (0 <= k < |types| && types[k].id == tf.typeId && forall j :: 0 <= j < k ==> types[j].id != tf.typeId)
              ==> r == (if types[k].nameHi == "" then "Unknown" else types[k].nameHi)
  {
    match tf
    case AllTypes => "सभी"
    case OnlyType(v) =>
      match FindIndex(types, HasTypeId(v))
      case Some(k) => if types[k].nameHi == "" then "Unknown" else types[k].nameHi
      case None => "Unknown"
  }

  // ---------------------------------------------------------------------------
  // Monitoring report: totals

  /** Bucket `b` of a district's selection. */
  function DistrictBucket(incidents: seq<Incident>, year: int, month: MonthFilter, tf: TypeFilter, b: Bucket): District -> int {
    (d: District) => Get(CalculateStats(DistrictPool(incidents, d.code, year, month, tf)), b)
  }

  function SummaryBucket(b: Bucket): SummaryRow -> int {
    (r: SummaryRow) => Get(r.stats, b)
  }

  /** A district's selection is the state-wide selection narrowed to the district. */
  lemma DistrictPoolOfSelection(incidents: seq<Incident>, c: int, year: int, month: MonthFilter, tf: TypeFilter)
    ensures DistrictPool(incidents, c, year, month, tf)
            == Filter(Filter(incidents, StateSelect(year, month, tf)), KeyIs(DistCodeOf, c))
  {
    forall m | 0 <= m < |incidents|
      ensures DistrictSelect(c, year, month, tf)(incidents[m])
              == (StateSelect(year, month, tf)(incidents[m]) && KeyIs(DistCodeOf, c)(incidents[m]))
    {
      var i := incidents[m];
      assert StateSelect(year, month, tf)(i) == (InPeriod(i, year, month) && TypeMatches(i, tf));
      assert DistCodeOf(i) == i.distCode;
      assert KeyIs(DistCodeOf, c)(i) == (DistCodeOf(i) == c);
    }
    FilterFilter(incidents, StateSelect(year, month, tf), KeyIs(DistCodeOf, c), DistrictSelect(c, year, month, tf));
  }

  lemma DistrictPoolsOfSelection(ds: seq<District>, incidents: seq<Incident>, year: int, month: MonthFilter,
                                 tf: TypeFilter)
    ensures forall k :: 0 <= k < |ds| ==>
              DistrictPool(incidents, ds[k].code, year, month, tf)
              == Filter(Filter(incidents, StateSelect(year, month, tf)), KeyIs(DistCodeOf, ds[k].code))
  {
    forall k | 0 <= k < |ds|
      ensures DistrictPool(incidents, ds[k].code, year, month, tf)
              == Filter(Filter(incidents, StateSelect(year, month, tf)), KeyIs(DistCodeOf, ds[k].code))
    {
      DistrictPoolOfSelection(incidents, ds[k].code, year, month, tf);
    }
  }

  /** When district codes are unique and every selected incident belongs to a
      listed district, the districts' totals add up to the grand totals. */
  lemma DistrictTotalsAddUp(districts: seq<District>, incidents: seq<Incident>, year: int, month: MonthFilter,
                            tf: TypeFilter, b: Bucket)
    requires NoDuplicates(Keys(districts, DistrictCode))
    requires forall i :: i in incidents && StateSelect(year, month, tf)(i) ==> i.distCode in Keys(districts, DistrictCode)
    ensures Sum(districts, DistrictBucket(incidents, year, month, tf, b))
            == Get(CalculateStats(Filter(incidents, StateSelect(year, month, tf))), b)
  {
    var sel := Filter(incidents, StateSelect(year, month, tf));
    var codes := Keys(districts, DistrictCode);
    var f := KeyTotal(sel, DistCodeOf, BucketQty(b));
    forall k | 0 <= k < |districts|
      ensures DistrictBucket(incidents, year, month, tf, b)(districts[k]) == f(codes[k])
    {
      DistrictPoolOfSelection(incidents, districts[k].code, year, month, tf);
    }
    SumIndexwise(districts, codes, DistrictBucket(incidents, year, month, tf, b), f);
    forall m | 0 <= m < |sel|
      ensures DistCodeOf(sel[m]) in codes
    {
      assert sel[m] in sel;
    }
    SumByKeys(codes, sel, DistCodeOf, BucketQty(b));
  }

  /** The district-wise summary's rows add up to its grand-total row, provided
      district codes are unique and every selected incident's district is listed. */
  lemma SummaryAddsUp(districts: seq<District>, incidents: seq<Incident>, year: int, month: MonthFilter,
                      tf: TypeFilter, b: Bucket)
    requires NoDuplicates(Keys(districts, DistrictCode))
    requires forall i :: i in incidents && StateSelect(year, month, tf)(i) ==> i.distCode in Keys(districts, DistrictCode)
    ensures var out := MonitoringReport(districts, [], incidents, year, month, Summary, tf, []);
            Sum(out.table.summary, SummaryBucket(b)) == Get(out.grandTotals, b)
  {
    var sorted := SortedDistricts(districts);
    var rows := SummaryRows(sorted, incidents, year, month, tf);
    SumIndexwise(rows, sorted, SummaryBucket(b), DistrictBucket(incidents, year, month, tf, b));
    SumPermutation(sorted, districts, DistrictBucket(incidents, year, month, tf, b));
    DistrictTotalsAddUp(districts, incidents, year, month, tf, b);
  }

  /** The tehsils of a district have distinct codes and cover every incident
      selected for the district. */
  predicate TehsilsCover(d: District, tehsils: seq<Tehsil>, incidents: seq<Incident>, year: int,
                         month: MonthFilter, tf: TypeFilter)
  {
    var codes := Keys(Filter(tehsils, TehsilOfDistrict(d.code)), TehsilCode);
    && NoDuplicates(codes)
    && forall i :: i in DistrictPool(incidents, d.code, year, month, tf) ==> i.tehCode in codes
  }

  lemma {:induction false} TehsilBlocksTotal(dts: seq<Tehsil>, pool: seq<Incident>, d: District,
                                             types: seq<TypeEntry>, b: Bucket)
    ensures Sum(TehsilBlocks(dts, pool, d, types), RowBucket(b))
            == Sum(Keys(dts, TehsilCode), KeyTotal(pool, TehCodeOf, BucketQty(b)))
  {
    if dts != [] {
      var head, rest := FirstBlockTotal(dts, pool, d, types, b);
      TehsilBlocksTotal(dts[1..], pool, d, types, b);
      assert Keys(dts, TehsilCode)[1..] == Keys(dts[1..], TehsilCode);
      BlockSumStep(head, rest, Keys(dts, TehsilCode), KeyTotal(pool, TehCodeOf, BucketQty(b)), RowBucket(b));
    }
  }

  /** The first tehsil's block, which adds up to that tehsil's totals, and the
      blocks of the others. */
  lemma FirstBlockTotal(dts: seq<Tehsil>, pool: seq<Incident>, d: District, types: seq<TypeEntry>, b: Bucket)
    returns (head: seq<FlatRow>, rest: seq<FlatRow>)
    requires dts != []
    ensures TehsilBlocks(dts, pool, d, types) == head + rest
    ensures rest == TehsilBlocks(dts[1..], pool, d, types)
    ensures Sum(head, RowBucket(b)) == KeyTotal(pool, TehCodeOf, BucketQty(b))(Keys(dts, TehsilCode)[0])
  {
    var tp := Filter(pool, KeyIs(TehCodeOf, dts[0].code));
    head := TehsilRows(dts[0], tp, Some(d), types);
    rest := TehsilBlocks(dts[1..], pool, d, types);
    TehsilRowsTotal(dts[0], tp, Some(d), types, b);
  }

  /** A block adding up to the first key's total, followed by blocks adding up
      to the remaining keys' totals, adds up to all the keys' totals. */
  lemma BlockSumStep(head: seq<FlatRow>, rest: seq<FlatRow>, codes: seq<int>, f: int -> int, g: FlatRow -> int)
    requires |codes| >= 1
    requires Sum(head, g) == f(codes[0]) && Sum(rest, g) == Sum(codes[1..], f)
    ensures Sum(head + rest, g) == Sum(codes, f)
  {
    SumAppend(head, rest, g);
  }

  /** A district's detailed rows add up to its summary row when its tehsils
      cover its incidents. */
  lemma DistrictRowsTotal(d: District, tehsils: seq<Tehsil>, incidents: seq<Incident>, year: int,
                          month: MonthFilter, tf: TypeFilter, types: seq<TypeEntry>, b: Bucket)
    requires TehsilsCover(d, tehsils, incidents, year, month, tf)
    ensures Sum(DistrictRows(d, tehsils, incidents, year, month, tf, types), RowBucket(b))
            == DistrictBucket(incidents, year, month, tf, b)(d)
  {
    var dts := Filter(tehsils, TehsilOfDistrict(d.code));
    var pool := DistrictPool(incidents, d.code, year, month, tf);
    var codes := Keys(dts, TehsilCode);
    if dts != [] {
      TehsilBlocksTotal(dts, pool, d, types, b);
      forall m | 0 <= m < |pool|
        ensures TehCodeOf(pool[m]) in codes
      {
        assert pool[m] in pool;
      }
      SumByKeys(codes, pool, TehCodeOf, BucketQty(b));
    }
  }

  /** The detailed rows add up, bucket by bucket, to the districts' own totals
      when each district's rows add up to its total. */
  lemma {:induction false} DetailedRowsTotal(sorted: seq<District>, rowsOf: District -> seq<FlatRow>, serial: int,
                                             g: District -> int, b: Bucket)
    requires forall k :: 0 <= k < |sorted| ==> Sum(rowsOf(sorted[k]), RowBucket(b)) == g(sorted[k])
    ensures Sum(DetailedRows(sorted, rowsOf, serial), RowBucket(b)) == Sum(sorted, g)
  {
    if sorted != [] {
      var rows := rowsOf(sorted[0]);
      if |rows| > 0 {
        var m := MarkDistrictFirst(rows, serial);
        var rest := DetailedRows(sorted[1..], rowsOf, serial + 1);
        DetailedRowsTotal(sorted[1..], rowsOf, serial + 1, g, b);
        SumIndexwise(m, rows, RowBucket(b), RowBucket(b));
        SumAppend(m, rest, RowBucket(b));
      } else {
        DetailedRowsTotal(sorted[1..], rowsOf, serial, g, b);
      }
    }
  }

  /** Unfolds the monitoring report's detailed table, for the lemmas about it below. */
  lemma MonitoringDetailedTable(districts: seq<District>, tehsils: seq<Tehsil>, incidents: seq<Incident>, year: int,
                                month: MonthFilter, tf: TypeFilter, types: seq<TypeEntry>)
    ensures MonitoringReport(districts, tehsils, incidents, year, month, Detailed, tf, types).table
            == DetailedTable(DetailedRows(SortedDistricts(districts), DistrictRowsOf(tehsils, incidents, year, month, tf, types), 1))
  {
  }

  /** The detailed report's rows add up to its grand-total row, provided
      district codes are unique, every selected incident's district is listed,
      and each district's tehsils have distinct codes and cover its incidents. */
  lemma DetailedAddsUp(districts: seq<District>, tehsils: seq<Tehsil>, incidents: seq<Incident>, year: int,
                       month: MonthFilter, tf: TypeFilter, types: seq<TypeEntry>, b: Bucket)
    requires NoDuplicates(Keys(districts, DistrictCode))
    requires forall i :: i in incidents && StateSelect(year, month, tf)(i) ==> i.distCode in Keys(districts, DistrictCode)
    requires forall d :: d in districts ==> TehsilsCover(d, tehsils, incidents, year, month, tf)
    ensures var out := MonitoringReport(districts, tehsils, incidents, year, month, Detailed, tf, types);
            Sum(out.table.detailed, RowBucket(b)) == Get(out.grandTotals, b)
  {
    var sorted := SortedDistricts(districts);
    var rowsOf := DistrictRowsOf(tehsils, incidents, year, month, tf, types);
    var g := DistrictBucket(incidents, year, month, tf, b);
    MonitoringDetailedTable(districts, tehsils, incidents, year, month, tf, types);
    forall k | 0 <= k < |sorted|
      ensures Sum(rowsOf(sorted[k]), RowBucket(b)) == g(sorted[k])
    {
      assert sorted[k] in multiset(districts);
      DistrictRowsTotal(sorted[k], tehsils, incidents, year, month, tf, types, b);
    }
    DetailedRowsTotal(sorted, rowsOf, 1, g, b);
    SumPermutation(sorted, districts, g);
    DistrictTotalsAddUp(districts, incidents, year, month, tf, b);
  }

  // ---------------------------------------------------------------------------
  // Monitoring report: shape of the detailed table

  predicate IsDistOpener(r: FlatRow) {
    r.isDistFirst
  }

  function HasRows(rowsOf: District -> seq<FlatRow>): District -> bool {
    (d: District) => |rowsOf(d)| > 0
  }

  function HasTehsils(tehsils: seq<Tehsil>): District -> bool {
    (d: District) => Filter(tehsils, TehsilOfDistrict(d.code)) != []
  }

  /** Unmarked district rows: nothing is flagged as a district opener yet. */
  predicate Unmarked(rowsOf: District -> seq<FlatRow>, sorted: seq<District>) {
    forall k, j :: 0 <= k < |sorted| && 0 <= j < |rowsOf(sorted[k])| ==>
      !rowsOf(sorted[k])[j].isDistFirst && rowsOf(sorted[k])[j].distRowSpan.None?
  }

  lemma UnmarkedTail(rowsOf: District -> seq<FlatRow>, sorted: seq<District>)
    requires sorted != [] && Unmarked(rowsOf, sorted)
    ensures Unmarked(rowsOf, sorted[1..])
    ensures forall j :: 0 <= j < |rowsOf(sorted[0])| ==> !rowsOf(sorted[0])[j].isDistFirst
  {
    forall k, j | 0 <= k < |sorted[1..]| && 0 <= j < |rowsOf(sorted[1..][k])|
      ensures !rowsOf(sorted[1..][k])[j].isDistFirst && rowsOf(sorted[1..][k])[j].distRowSpan.None?
    {
      assert sorted[1..][k] == sorted[k + 1];
    }
  }

  /** A marked block of unmarked rows has exactly one district opener, its first row. */
  lemma BlockOpeners(rows: seq<FlatRow>, serial: int)
    requires rows != [] && forall j :: 0 <= j < |rows| ==> !rows[j].isDistFirst
    ensures Filter(MarkDistrictFirst(rows, serial), IsDistOpener) == [MarkDistrictFirst(rows, serial)[0]]
  {
    var m := MarkDistrictFirst(rows, serial);
    assert m == [m[0]] + m[1..];
    FilterAppend([m[0]], m[1..], IsDistOpener);
    FilterNone(m[1..], IsDistOpener);
  }

  /** The `k`-th opener is the marked first row of the `k`-th emitted district,
      carrying serial number `serial + k`. */
  predicate OpenersNumbered(opens: seq<FlatRow>, emitted: seq<District>, rowsOf: District -> seq<FlatRow>, serial: int) {
    && |opens| == |emitted|
    && forall k :: 0 <= k < |opens| ==>
         && |rowsOf(emitted[k])| > 0
         && opens[k] == MarkDistrictFirst(rowsOf(emitted[k]), serial + k)[0]
  }

  lemma OpenersCons(m0: FlatRow, opens: seq<FlatRow>, d: District, emitted: seq<District>,
                    rowsOf: District -> seq<FlatRow>, serial: int)
    requires OpenersNumbered(opens, emitted, rowsOf, serial + 1)
    requires |rowsOf(d)| > 0 && m0 == MarkDistrictFirst(rowsOf(d), serial)[0]
    ensures OpenersNumbered([m0] + opens, [d] + emitted, rowsOf, serial)
  {
    var o := [m0] + opens;
    var e := [d] + emitted;
    forall k | 0 <= k < |o|
      ensures |rowsOf(e[k])| > 0 && o[k] == MarkDistrictFirst(rowsOf(e[k]), serial + k)[0]
    {
      if k > 0 {
        assert o[k] == opens[k - 1] && e[k] == emitted[k - 1];
      }
    }
  }

  /** The district openers of the detailed table are exactly the districts
      with rows, in order, numbered consecutively from `serial`. */
  lemma {:induction false} DetailedSerials(sorted: seq<District>, rowsOf: District -> seq<FlatRow>, serial: int)
    requires Unmarked(rowsOf, sorted)
    ensures OpenersNumbered(Filter(DetailedRows(sorted, rowsOf, serial), IsDistOpener), Filter(sorted, HasRows(rowsOf)),
                            rowsOf, serial)
  {
    if sorted != [] {
      var block := rowsOf(sorted[0]);
      UnmarkedTail(rowsOf, sorted);
      if |block| > 0 {
        var m := MarkDistrictFirst(block, serial);
        var rest := DetailedRows(sorted[1..], rowsOf, serial + 1);
        assert DetailedRows(sorted, rowsOf, serial) == m + rest;
        DetailedSerials(sorted[1..], rowsOf, serial + 1);
        FilterAppend(m, rest, IsDistOpener);
        BlockOpeners(block, serial);
        assert Filter(sorted, HasRows(rowsOf)) == [sorted[0]] + Filter(sorted[1..], HasRows(rowsOf));
        OpenersCons(m[0], Filter(rest, IsDistOpener), sorted[0], Filter(sorted[1..], HasRows(rowsOf)), rowsOf, serial);
      } else {
        assert DetailedRows(sorted, rowsOf, serial) == DetailedRows(sorted[1..], rowsOf, serial);
        DetailedSerials(sorted[1..], rowsOf, serial);
        assert Filter(sorted, HasRows(rowsOf)) == Filter(sorted[1..], HasRows(rowsOf));
      }
    }
  }

  /** The serial numbers of the detailed table run 1, 2, ... over the
      districts that have tehsils, in name order; districts without tehsils
      are skipped. */
  lemma MonitoringDetailedSerials(districts: seq<District>, tehsils: seq<Tehsil>, incidents: seq<Incident>,
                                  year: int, month: MonthFilter, tf: TypeFilter, types: seq<TypeEntry>)
    ensures var rows := MonitoringReport(districts, tehsils, incidents, year, month, Detailed, tf, types).table.detailed;
            var opens := Filter(rows, IsDistOpener);
            var emitted := Filter(SortedDistricts(districts), HasTehsils(tehsils));
            && |opens| == |emitted|
            && forall k :: 0 <= k < |opens| ==>
                 opens[k].distSerial == Some(k + 1) && opens[k].distCode == Some(emitted[k].code)
  {
    var sorted := SortedDistricts(districts);
    var rowsOf := DistrictRowsOf(tehsils, incidents, year, month, tf, types);
    MonitoringDetailedTable(districts, tehsils, incidents, year, month, tf, types);
    RowsOfFacts(tehsils, incidents, year, month, tf, types, sorted);
    DetailedSerials(sorted, rowsOf, 1);
    OpenersSerials(Filter(DetailedRows(sorted, rowsOf, 1), IsDistOpener), Filter(sorted, HasRows(rowsOf)), sorted, rowsOf, 1);
  }

  /** What the serial numbering needs of the districts' unmarked rows: none is
      marked yet, a district has rows exactly when it has tehsils, and its rows
      carry its code. */
  lemma RowsOfFacts(tehsils: seq<Tehsil>, incidents: seq<Incident>, year: int, month: MonthFilter,
                    tf: TypeFilter, types: seq<TypeEntry>, sorted: seq<District>)
    ensures Unmarked(DistrictRowsOf(tehsils, incidents, year, month, tf, types), sorted)
    ensures Filter(sorted, HasRows(DistrictRowsOf(tehsils, incidents, year, month, tf, types)))
            == Filter(sorted, HasTehsils(tehsils))
    ensures forall d :: d in sorted && |DistrictRowsOf(tehsils, incidents, year, month, tf, types)(d)| > 0 ==>
              DistrictRowsOf(tehsils, incidents, year, month, tf, types)(d)[0].distCode == Some(d.code)
  {
    var rowsOf := DistrictRowsOf(tehsils, incidents, year, month, tf, types);
    FilterPointwise(sorted, HasRows(rowsOf), HasTehsils(tehsils));
  }

  /** Numbered openers carry their serial and their district's code. */
  lemma OpenersSerials(opens: seq<FlatRow>, emitted: seq<District>, sorted: seq<District>,
                       rowsOf: District -> seq<FlatRow>, serial: int)
    requires OpenersNumbered(opens, emitted, rowsOf, serial)
    requires forall k :: 0 <= k < |emitted| ==> emitted[k] in sorted
    requires forall d :: d in sorted && |rowsOf(d)| > 0 ==> rowsOf(d)[0].distCode == Some(d.code)
    ensures forall k :: 0 <= k < |opens| ==>
              opens[k].distSerial == Some(serial + k) && opens[k].distCode == Some(emitted[k].code)
  {
    forall k | 0 <= k < |opens|
      ensures opens[k].distSerial == Some(serial + k) && opens[k].distCode == Some(emitted[k].code)
    {
      var rows := rowsOf(emitted[k]);
      assert opens[k] == MarkDistrictFirst(rows, serial + k)[0];
    }
  }

  lemma {:induction false} TehsilBlocksTiled(dts: seq<Tehsil>, pool: seq<Incident>, d: District, types: seq<TypeEntry>)
    ensures Tiled(TehMarks(TehsilBlocks(dts, pool, d, types)))
  {
    if dts != [] {
      var tp := Filter(pool, KeyIs(TehCodeOf, dts[0].code));
      var head := TehsilRows(dts[0], tp, Some(d), types);
      var rest := TehsilBlocks(dts[1..], pool, d, types);
      assert TehsilBlocks(dts, pool, d, types) == head + rest;
      TehsilRowsTiled(dts[0], tp, Some(d), types);
      TehsilBlocksTiled(dts[1..], pool, d, types);
      TehMarksAppend(head, rest);
      TiledAppend(TehMarks(head), TehMarks(rest));
    }
  }

  lemma DistMarksAppend(a: seq<FlatRow>, b: seq<FlatRow>)
    ensures DistMarks(a + b) == DistMarks(a) + DistMarks(b)
  {
  }

  /** In the detailed table both the district cells and the tehsil cells tile
      their columns when each district's own tehsil cells do. */
  lemma {:induction false} DetailedTiled(sorted: seq<District>, rowsOf: District -> seq<FlatRow>, serial: int)
    requires Unmarked(rowsOf, sorted)
    requires forall k :: 0 <= k < |sorted| ==> Tiled(TehMarks(rowsOf(sorted[k])))
    ensures Tiled(TehMarks(DetailedRows(sorted, rowsOf, serial)))
    ensures Tiled(DistMarks(DetailedRows(sorted, rowsOf, serial)))
  {
    if sorted != [] {
      var rows := rowsOf(sorted[0]);
      UnmarkedTail(rowsOf, sorted);
      if |rows| > 0 {
        var m := MarkDistrictFirst(rows, serial);
        var rest := DetailedRows(sorted[1..], rowsOf, serial + 1);
        DetailedTiled(sorted[1..], rowsOf, serial + 1);
        assert TehMarks(m) == TehMarks(rows);
        assert forall j :: 1 <= j < |m| ==> !DistMarks(m)[j].first;
        TiledBlock(DistMarks(m));
        TehMarksAppend(m, rest);
        DistMarksAppend(m, rest);
        TiledAppend(TehMarks(m), TehMarks(rest));
        TiledAppend(DistMarks(m), DistMarks(rest));
      } else {
        DetailedTiled(sorted[1..], rowsOf, serial);
      }
    }
  }

  /** The merged district and tehsil cells of the detailed monitoring table
      tile their columns. */
  lemma MonitoringDetailedTiled(districts: seq<District>, tehsils: seq<Tehsil>, incidents: seq<Incident>,
                                year: int, month: MonthFilter, tf: TypeFilter, types: seq<TypeEntry>)
    ensures var rows := MonitoringReport(districts, tehsils, incidents, year, month, Detailed, tf, types).table.detailed;
            Tiled(TehMarks(rows)) && Tiled(DistMarks(rows))
  {
    var sorted := SortedDistricts(districts);
    var rowsOf := DistrictRowsOf(tehsils, incidents, year, month, tf, types);
    forall k | 0 <= k < |sorted|
      ensures Tiled(TehMarks(rowsOf(sorted[k])))
    {
      var d := sorted[k];
      var dts := Filter(tehsils, TehsilOfDistrict(d.code));
      if dts != [] {
        TehsilBlocksTiled(dts, DistrictPool(incidents, d.code, year, month, tf), d, types);
      }
    }
    MonitoringDetailedTable(districts, tehsils, incidents, year, month, tf, types);
    DetailedTiled(sorted, rowsOf, 1);
  }

  /** Each district's rows name that district. */
  predicate NamedRows(rowsOf: District -> seq<FlatRow>, sorted: seq<District>) {
    forall k, j :: 0 <= k < |sorted| && 0 <= j < |rowsOf(sorted[k])| ==>
      rowsOf(sorted[k])[j].distName == Some(sorted[k].nameHi)
  }

  lemma NamedRowsTail(rowsOf: District -> seq<FlatRow>, sorted: seq<District>)
    requires sorted != [] && NamedRows(rowsOf, sorted)
    ensures NamedRows(rowsOf, sorted[1..])
  {
    forall k, j | 0 <= k < |sorted[1..]| && 0 <= j < |rowsOf(sorted[1..][k])|
      ensures rowsOf(sorted[1..][k])[j].distName == Some(sorted[1..][k].nameHi)
    {
      assert sorted[1..][k] == sorted[k + 1];
    }
  }

  /** Every row names a district, none earlier than `lo`. */
  predicate NamesNoEarlier(rows: seq<FlatRow>, lo: string) {
    forall k :: 0 <= k < |rows| ==> rows[k].distName.Some? && NameLeq(lo, rows[k].distName.value)
  }

  /** Every detailed row names a district no earlier than `lo` when every
      district does. */
  lemma {:induction false} DetailedNamesBounded(sorted: seq<District>, rowsOf: District -> seq<FlatRow>, serial: int,
                                                lo: string)
    requires NamedRows(rowsOf, sorted)
    requires forall k :: 0 <= k < |sorted| ==> NameLeq(lo, sorted[k].nameHi)
    ensures NamesNoEarlier(DetailedRows(sorted, rowsOf, serial), lo)
  {
    if sorted != [] {
      var block := rowsOf(sorted[0]);
      var next := if |block| > 0 then serial + 1 else serial;
      NamedRowsTail(rowsOf, sorted);
      DetailedNamesBounded(sorted[1..], rowsOf, next, lo);
      if |block| > 0 {
        var m := MarkDistrictFirst(block, serial);
        var rest := DetailedRows(sorted[1..], rowsOf, next);
        var all := m + rest;
        assert DetailedRows(sorted, rowsOf, serial) == all;
        forall k | 0 <= k < |all|
          ensures all[k].distName.Some? && NameLeq(lo, all[k].distName.value)
        {
          if k >= |m| {
            assert all[k] == rest[k - |m|];
            assert rest[k - |m|].distName.Some? && NameLeq(lo, rest[k - |m|].distName.value);
          } else {
            assert all[k] == m[k];
            assert m[k].distName == block[k].distName;
            assert block[k].distName == Some(sorted[0].nameHi);
            assert NameLeq(lo, sorted[0].nameHi);
          }
        }
      }
    }
  }

  /** The rows name districts in non-decreasing name order. */
  predicate InDistrictNameOrder(rows: seq<FlatRow>) {
    forall i, j :: 0 <= i < j < |rows| ==>
      rows[i].distName.Some? && rows[j].distName.Some? && NameLeq(rows[i].distName.value, rows[j].distName.value)
  }

  /** The detailed table lists districts in name order. */
  lemma {:induction false} DetailedInNameOrder(sorted: seq<District>, rowsOf: District -> seq<FlatRow>, serial: int)
    requires NamedRows(rowsOf, sorted)
    requires SortedBy(sorted, DistNameHi)
    ensures InDistrictNameOrder(DetailedRows(sorted, rowsOf, serial))
  {
    if sorted != [] {
      var d := sorted[0];
      var block := rowsOf(d);
      var next := if |block| > 0 then serial + 1 else serial;
      var rest := DetailedRows(sorted[1..], rowsOf, next);
      NamedRowsTail(rowsOf, sorted);
      assert SortedBy(sorted[1..], DistNameHi) by {
        forall i, j | 0 <= i < j < |sorted[1..]|
          ensures NameLeq(DistNameHi(sorted[1..][i]), DistNameHi(sorted[1..][j]))
        {
          assert sorted[1..][i] == sorted[i + 1] && sorted[1..][j] == sorted[j + 1];
        }
      }
      forall k | 0 <= k < |sorted[1..]|
        ensures NameLeq(d.nameHi, sorted[1..][k].nameHi)
      {
        assert sorted[1..][k] == sorted[k + 1];
        assert NameLeq(DistNameHi(sorted[0]), DistNameHi(sorted[k + 1]));
      }
      DetailedInNameOrder(sorted[1..], rowsOf, next);
      DetailedNamesBounded(sorted[1..], rowsOf, next, d.nameHi);
      if |block| > 0 {
        var m := MarkDistrictFirst(block, serial);
        var all := m + rest;
        assert DetailedRows(sorted, rowsOf, serial) == all;
        forall i, j | 0 <= i < j < |all|
          ensures all[i].distName.Some? && all[j].distName.Some? && NameLeq(all[i].distName.value, all[j].distName.value)
        {
          if j < |m| {
            assert rowsOf(sorted[0])[i].distName == Some(d.nameHi);
            assert rowsOf(sorted[0])[j].distName == Some(d.nameHi);
            NameLeqTotal(d.nameHi, d.nameHi);
          } else if i >= |m| {
            assert all[i] == rest[i - |m|] && all[j] == rest[j - |m|];
          } else {
            assert rowsOf(sorted[0])[i].distName == Some(d.nameHi);
            assert all[j] == rest[j - |m|];
          }
        }
      }
    }
  }

  /** The full detailed table is in district name order. */
  lemma MonitoringDetailedInNameOrder(districts: seq<District>, tehsils: seq<Tehsil>, incidents: seq<Incident>,
                                      year: int, month: MonthFilter, tf: TypeFilter, types: seq<TypeEntry>)
    ensures InDistrictNameOrder(MonitoringReport(districts, tehsils, incidents, year, month, Detailed, tf, types).table.detailed)
  {
    var sorted := SortedDistricts(districts);
    MonitoringDetailedTable(districts, tehsils, incidents, year, month, tf, types);
    DetailedInNameOrder(sorted, DistrictRowsOf(tehsils, incidents, year, month, tf, types), 1);
  }

  // ---------------------------------------------------------------------------
  // The dashboard against the reports

  /** On records whose road subtype occurs only under government assets, a user
      without a district sees on the dashboard the monitoring report's grand
      totals for the whole year and every disaster type, in either mode. */
  lemma DashboardMatchesMonitoring(user: User, districts: seq<District>, tehsils: seq<Tehsil>,
                                   incidents: seq<Incident>, year: int, rt: ReportType, types: seq<TypeEntry>)
    requires !Truthy(user.distCode)
    requires Dashboard.RoadSubtypeConsistent(incidents)
    ensures Dashboard.DashboardTotals(user, incidents, year)
            == MonitoringReport(districts, tehsils, incidents, year, AllMonths, rt, AllTypes, types).grandTotals
  {
    FilterPointwise(incidents, Dashboard.DashboardSelect(user, year), StateSelect(year, AllMonths, AllTypes));
    Dashboard.FilterKeepsConsistent(incidents, Dashboard.DashboardSelect(user, year));
    Dashboard.DashboardMatchesReports(Filter(incidents, Dashboard.DashboardSelect(user, year)));
  }

  /** On the same records, a district user sees on the dashboard the tehsil
      report's grand totals for the whole year. */
  lemma DashboardMatchesTehsilReport(user: User, tehsils: seq<Tehsil>, incidents: seq<Incident>, year: int,
                                     types: seq<TypeEntry>)
    requires Truthy(user.distCode)
    requires Dashboard.RoadSubtypeConsistent(incidents)
    ensures Dashboard.DashboardTotals(user, incidents, year)
            == TehsilReport(tehsils, user, incidents, year, AllMonths, types).grandTotals
  {
    FilterPointwise(incidents, Dashboard.DashboardSelect(user, year), UserDistrictSelect(user.distCode, year, AllMonths));
    Dashboard.FilterKeepsConsistent(incidents, Dashboard.DashboardSelect(user, year));
    Dashboard.DashboardMatchesReports(Filter(incidents, Dashboard.DashboardSelect(user, year)));
  }
}
