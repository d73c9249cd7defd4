/** The dashboard: the year's damage totals for the signed-in user's scope and
    a pie chart of the non-zero buckets. */
module Dashboard {
  import opened Base
  import opened Types
  import opened Stats
  import DistrictChart

  /** The dashboard's selection: undeleted incidents of the year, restricted to
      the user's district when the user carries one (a missing or zero
      district code means the whole state). */
  function DashboardSelect(user: User, year: int): Incident -> bool {
    (i: Incident) => i.year == year && !i.isDeleted && (Truthy(user.distCode) ==> i.distCode == user.distCode.value)
  }

  /** The dashboard's road rule looks at the damage subtype alone. */
  predicate IsRoadBySubtype(i: Incident) {
    i.dmSubtype == Some(RoadSubtype)
  }

  /** A record with the road subtype under a damage type other than government assets. */
  predicate IsStrayRoad(i: Incident) {
    i.dmSubtype == Some(RoadSubtype) && i.dmType != Some(AssetType)
  }

  /** The dashboard's six totals, each a `reduce` over the selection. The first
      five use the reports' rules; the road total uses `IsRoadBySubtype`. */
  function DashboardStats(xs: seq<Incident>): (r: ReportStats)
    ensures forall b :: b != RoadDamage ==> Get(r, b) == Get(CalculateStats(xs), b)
    ensures r.roadDamage == CalculateStats(xs).roadDamage + SumQty(Filter(xs, IsStrayRoad))
  {
    var r := ReportStats(
      SumQty(Filter(xs, IsLossOfLife)),
      SumQty(Filter(xs, IsHouseDamage)),
      SumQty(Filter(xs, IsAnimalLoss)),
      SumQty(Filter(xs, IsCropDamage)),
      SumQty(Filter(xs, IsGplLoss)),
      SumQty(Filter(xs, IsRoadBySubtype)));
    RoadSplit(xs);
    r
  }

  /** The road-subtype records are the report's road records plus the stray ones. */
  lemma {:induction false} RoadSplit(xs: seq<Incident>)
    ensures SumQty(Filter(xs, IsRoadBySubtype)) == SumQty(Filter(xs, IsRoadDamage)) + SumQty(Filter(xs, IsStrayRoad))
  {
    if xs != [] {
      RoadSplit(xs[1..]);
      var x := xs[0];
      SumAppend(if IsRoadBySubtype(x) then [x] else [], Filter(xs[1..], IsRoadBySubtype), Qty);
      SumAppend(if IsRoadDamage(x) then [x] else [], Filter(xs[1..], IsRoadDamage), Qty);
      SumAppend(if IsStrayRoad(x) then [x] else [], Filter(xs[1..], IsStrayRoad), Qty);
    }
  }

  /** Records are consistent when the road subtype only occurs under the
      government-asset damage type, as the entry form's cascading selectors ensure. */
  predicate RoadSubtypeConsistent(xs: seq<Incident>) {
    forall k :: 0 <= k < |xs| ==> IsRoadBySubtype(xs[k]) ==> xs[k].dmType == Some(AssetType)
  }

  /** On consistent records the dashboard's totals are the reports' totals. */
  lemma DashboardMatchesReports(xs: seq<Incident>)
    requires RoadSubtypeConsistent(xs)
    ensures DashboardStats(xs) == CalculateStats(xs)
  {
    FilterNone(xs, IsStrayRoad);
  }

  /** On a record with the road subtype under another damage type the two
      road totals differ. */
  lemma DashboardRoadDiffers()
    ensures var stray := Incident(1, 1, 1, 1, None, Some(LossOfLifeType), Some(RoadSubtype), Some(2), 1, 2024, false, None, None, None);
            DashboardStats([stray]).roadDamage == 2 && CalculateStats([stray]).roadDamage == 0
  {
    var stray := Incident(1, 1, 1, 1, None, Some(LossOfLifeType), Some(RoadSubtype), Some(2), 1, 2024, false, None, None, None);
    assert Filter([stray], IsStrayRoad) == [stray];
    assert Sum([stray][1..], Qty) == 0;
    assert SumQty([stray]) == 2;
    assert Filter([stray], IsRoadDamage) == [];
  }

  /** A district user sees only their district; a user without a district
      code sees the whole state. */
  lemma DashboardScope(user: User, year: int, i: Incident)
    ensures Truthy(user.distCode) ==> (DashboardSelect(user, year)(i) <==> i.year == year && !i.isDeleted && i.distCode == user.distCode.value)
    ensures !Truthy(user.distCode) ==> (DashboardSelect(user, year)(i) <==> i.year == year && !i.isDeleted)
  {
  }

  /** The dashboard's totals for the user and year. Each of the first five
      buckets sums the quantities of the selected records that `Classify`
      puts there; the road total sums those of the selected records with the
      road subtype. */
  function DashboardTotals(user: User, incidents: seq<Incident>, year: int): (r: ReportStats)
    ensures forall b :: b != RoadDamage ==>
              Get(r, b) == Sum(incidents, Masked(DashboardSelect(user, year), BucketQty(b)))
    ensures r.roadDamage == Sum(incidents, Masked(DashboardSelect(user, year), Masked(IsRoadBySubtype, Qty)))
  {
    var sel := Filter(incidents, DashboardSelect(user, year));
    SelectionBuckets(incidents, DashboardSelect(user, year));
    SumFilter(sel, IsRoadBySubtype, Qty);
    SumFilter(incidents, DashboardSelect(user, year), Masked(IsRoadBySubtype, Qty));
    DashboardStats(sel)
  }

  /** The statistics of a selection, bucket by bucket, as masked sums over the whole sequence. */
  lemma SelectionBuckets(xs: seq<Incident>, p: Incident -> bool)
    ensures forall b :: Get(CalculateStats(Filter(xs, p)), b) == Sum(xs, Masked(p, BucketQty(b)))
  {
    forall b
      ensures Get(CalculateStats(Filter(xs, p)), b) == Sum(xs, Masked(p, BucketQty(b)))
    {
      SumFilter(xs, p, BucketQty(b));
    }
  }

  /** A selection of consistent records is consistent. */
  lemma FilterKeepsConsistent(xs: seq<Incident>, p: Incident -> bool)
    requires RoadSubtypeConsistent(xs)
    ensures RoadSubtypeConsistent(Filter(xs, p))
  {
    var sel := Filter(xs, p);
    forall k | 0 <= k < |sel| && IsRoadBySubtype(sel[k])
      ensures sel[k].dmType == Some(AssetType)
    {
      assert sel[k] in xs;
      var j :| 0 <= j < |xs| && xs[j] == sel[k];
    }
  }

  // ---------------------------------------------------------------------------
  // Pie chart

  /** A pie slice: the bucket's label, its total and its colour. */
  datatype PieSlice = PieSlice(name: string, value: int, color: string)

  predicate IsPositiveSlice(s: PieSlice) {
    s.value > 0
  }

  /** One slice per bucket in the chart series' order. */
  function AllSlices(stats: ReportStats): (r: seq<PieSlice>)
    ensures |r| == |DistrictChart.SeriesConfig|
    ensures forall k :: 0 <= k < |r| ==>
              r[k] == PieSlice(DistrictChart.SeriesConfig[k].legend, Get(stats, DistrictChart.SeriesConfig[k].key),
                               DistrictChart.SeriesConfig[k].color)
  {
    var cfg := DistrictChart.SeriesConfig;
    seq(|cfg|, k requires 0 <= k < |cfg| => PieSlice(cfg[k].legend, Get(stats, cfg[k].key), cfg[k].color))
  }

  /** The slices with a positive value, in bucket order. */
  function PieSlices(stats: ReportStats): (r: seq<PieSlice>)
    ensures forall s :: s in r <==> s in AllSlices(stats) && s.value > 0
    ensures KeepsInOrder(r, AllSlices(stats), IsPositiveSlice)
  {
    FilterInOrder(AllSlices(stats), IsPositiveSlice);
    Filter(AllSlices(stats), IsPositiveSlice)
  }

  /** The chart table: a header row, then one (label, value) row per slice. */
  datatype PieTable = PieTable(header: seq<string>, rows: seq<(string, int)>)

  function PieChartData(stats: ReportStats): (t: PieTable)
    ensures t.header == ["Category", "Value"]
    ensures |t.rows| == |PieSlices(stats)|
    ensures forall k :: 0 <= k < |t.rows| ==> t.rows[k] == (PieSlices(stats)[k].name, PieSlices(stats)[k].value)
  {
    var slices := PieSlices(stats);
    PieTable(["Category", "Value"], seq(|slices|, k requires 0 <= k < |slices| => (slices[k].name, slices[k].value)))
  }

  /** The slice colours, parallel to the table rows. */
  function PieColors(stats: ReportStats): (cs: seq<string>)
    ensures |cs| == |PieChartData(stats).rows|
    ensures forall k :: 0 <= k < |cs| ==> cs[k] == PieSlices(stats)[k].color
  {
    var slices := PieSlices(stats);
    seq(|slices|, k requires 0 <= k < |slices| => slices[k].color)
  }

  /** The pie is drawn when the table has more than its header row. */
  predicate ShowPie(stats: ReportStats) {
    |PieChartData(stats).rows| + 1 > 1
  }

  /** The pie is drawn exactly when some bucket total is positive. */
  lemma ShowPieIffPositive(stats: ReportStats)
    ensures ShowPie(stats) <==> exists b :: Get(stats, b) > 0
  {
    if exists b :: Get(stats, b) > 0 {
      var b :| Get(stats, b) > 0;
      PositiveBucketShown(stats, b);
    }
    if ShowPie(stats) {
      ShownSlicePositive(stats);
    }
  }

  lemma PositiveBucketShown(stats: ReportStats, b: Bucket)
    requires Get(stats, b) > 0
    ensures ShowPie(stats)
  {
    var cfg := DistrictChart.SeriesConfig;
    var all := AllSlices(stats);
    var k := match b
      case LossOfLife => 0 case HouseDamage => 1 case AnimalLoss => 2
      case CropDamage => 3 case GplLoss => 4 case RoadDamage => 5;
    assert cfg[k].key == b;
    assert all[k] in all;
    assert all[k] in PieSlices(stats);
  }

  lemma ShownSlicePositive(stats: ReportStats)
    requires ShowPie(stats)
    ensures exists b :: Get(stats, b) > 0
  {
    var cfg := DistrictChart.SeriesConfig;
    var all := AllSlices(stats);
    var s := PieSlices(stats)[0];
    assert s in PieSlices(stats);
    var k :| 0 <= k < |all| && all[k] == s;
    assert Get(stats, cfg[k].key) > 0;
  }
}
