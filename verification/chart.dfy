/** The district damage chart: a stacked bar per district for one year, one
    series per damage bucket, with a legend that toggles series on and off. */
module DistrictChart {
  import opened Base
  import opened Types
  import opened Stats
  import opened Ordering

  /** A chart series: the bucket it plots, its legend label and its colour. */
  datatype Series = Series(key: Bucket, legend: string, color: string)

  const SeriesConfig: seq<Series> := [
    Series(LossOfLife, "जनहानि", "#DC2626"),
    Series(HouseDamage, "मकान क्षति", "#EA580C"),
    Series(AnimalLoss, "पशु हानि", "#A16207"),
    Series(CropDamage, "फसल क्षति", "#15803D"),
    Series(GplLoss, "शासकीय परिसंपत्ति", "#4338CA"),
    Series(RoadDamage, "सड़क क्षति", "#374151")
  ]

  /** The colour the chart falls back to when no series is visible. */
  const FallbackColor: string := "#ccc"

  /** Which series are switched on; a key that is absent reads as off. */
  type Visibility = map<Bucket, bool>

  const InitialVisibility: Visibility := map[
    LossOfLife := true, HouseDamage := true, AnimalLoss := true,
    CropDamage := true, GplLoss := true, RoadDamage := true]

  predicate Visible(v: Visibility, b: Bucket) {
    b in v && v[b]
  }

  lemma InitiallyAllVisible(b: Bucket)
    ensures Visible(InitialVisibility, b)
  {
  }

  /** The legend's toggle: the series flips, every other entry is kept. */
  function ToggleSeries(v: Visibility, key: Bucket): (r: Visibility)
    ensures Visible(r, key) == !Visible(v, key)
    ensures forall b :: b != key ==> Visible(r, b) == Visible(v, b)
    ensures key in r && forall b :: b != key ==> (b in r <==> b in v) && (b in v ==> r[b] == v[b])
  {
    v[key := !Visible(v, key)]
  }

  /** Toggling twice restores every series' visibility, and the map itself
      when the key was already present. */
  lemma ToggleTwice(v: Visibility, key: Bucket)
    ensures forall b :: Visible(ToggleSeries(ToggleSeries(v, key), key), b) == Visible(v, b)
    ensures key in v ==> ToggleSeries(ToggleSeries(v, key), key) == v
  {
  }

  function IsVisibleSeries(v: Visibility): Series -> bool {
    (s: Series) => Visible(v, s.key)
  }

  /** The visible series, in configuration order. */
  function ActiveSeries(v: Visibility): (r: seq<Series>)
    ensures forall s :: s in r <==> s in SeriesConfig && Visible(v, s.key)
    ensures KeepsInOrder(r, SeriesConfig, IsVisibleSeries(v))
  {
    FilterInOrder(SeriesConfig, IsVisibleSeries(v));
    Filter(SeriesConfig, IsVisibleSeries(v))
  }

  // ---------------------------------------------------------------------------
  // Aggregation by district

  /** The chart counts every undeleted incident of the year, in any month. */
  function ChartSelect(year: int): Incident -> bool {
    (i: Incident) => i.year == year && !i.isDeleted
  }

  /** One step of the aggregation loop: the six independent `if`s adding the
      quantity to the bucket whose condition holds. */
  function Accumulate(s: ReportStats, i: Incident): (r: ReportStats)
    ensures forall b :: Get(r, b) == Get(s, b) + BucketQty(b)(i)
  {
    var q := Qty(i);
    var s1 := if i.dmType == Some(LossOfLifeType) then s.(lossOfLife := s.lossOfLife + q) else s;
    var s2 := if i.dmType == Some(HouseDamageType) then s1.(houseDamage := s1.houseDamage + q) else s1;
    var s3 := if i.dmType == Some(AnimalLossType) then s2.(animalLoss := s2.animalLoss + q) else s2;
    var s4 := if i.dmType == Some(CropDamageType) then s3.(cropDamage := s3.cropDamage + q) else s3;
    var s5 := if i.dmType == Some(AssetType) && i.dmSubtype != Some(RoadSubtype)
              then s4.(gplLoss := s4.gplLoss + q) else s4;
    var s6 := if i.dmType == Some(AssetType) && i.dmSubtype == Some(RoadSubtype)
              then s5.(roadDamage := s5.roadDamage + q) else s5;
    s6
  }

  /** The aggregation object: district codes in the order they were first
      met, and the running totals per code. */
  datatype Aggregates = Aggregates(keys: seq<int>, table: map<int, ReportStats>)

  /** The district codes of the incidents, in order. */
  function DistCodes(xs: seq<Incident>): (r: seq<int>)
    ensures |r| == |xs| && forall k :: 0 <= k < |xs| ==> r[k] == xs[k].distCode
  {
    seq(|xs|, k requires 0 <= k < |xs| => xs[k].distCode)
  }

  /** The aggregation loop over the incidents, last incident processed last. */
  function Aggregate(xs: seq<Incident>): Aggregates
  {
    if xs == [] then Aggregates([], map[])
    else
      var prev := Aggregate(xs[..|xs| - 1]);
      var i := xs[|xs| - 1];
      var c := i.distCode;
      var start := if c in prev.table then prev.table[c] else ZeroStats;
      Aggregates(if c in prev.table then prev.keys else prev.keys + [c],
                 prev.table[c := Accumulate(start, i)])
  }

  /** The district-by-district statistics of the incidents. */
  ghost predicate AggregatesAgree(xs: seq<Incident>, agg: Aggregates) {
    && agg.keys == Distinct(DistCodes(xs))
    && (forall c :: c in agg.table <==> c in DistCodes(xs))
    && forall c :: c in agg.table ==> agg.table[c] == CalculateStats(Filter(xs, KeyIs(DistCodeOf, c)))
  }

  lemma FilterSnoc(init: seq<Incident>, i: Incident, p: Incident -> bool)
    ensures Filter(init + [i], p) == Filter(init, p) + (if p(i) then [i] else [])
  {
    FilterAppend(init, [i], p);
    assert Filter([i], p) == (if p(i) then [i] else []) + Filter([i][1..], p);
  }

  /** One bucket of the incident's own district after the step. */
  lemma OwnBucket(init: seq<Incident>, i: Incident, start: ReportStats, b: Bucket)
    requires Sum(Filter(init, KeyIs(DistCodeOf, i.distCode)), BucketQty(b)) == Get(start, b)
    ensures Get(Accumulate(start, i), b) == Sum(Filter(init + [i], KeyIs(DistCodeOf, i.distCode)), BucketQty(b))
  {
    var p := KeyIs(DistCodeOf, i.distCode);
    FilterSnoc(init, i, p);
    assert DistCodeOf(i) == i.distCode;
    SumAppend(Filter(init, p), [i], BucketQty(b));
    assert Sum([i], BucketQty(b)) == BucketQty(b)(i) + Sum([i][1..], BucketQty(b));
  }

  /** The incident's own district: its totals grow by the incident. */
  lemma AggregateOwnStep(init: seq<Incident>, i: Incident)
    requires AggregatesAgree(init, Aggregate(init))
    ensures i.distCode in Aggregate(init + [i]).table
    ensures Aggregate(init + [i]).table[i.distCode] == CalculateStats(Filter(init + [i], KeyIs(DistCodeOf, i.distCode)))
  {
    var xs := init + [i];
    assert xs[..|xs| - 1] == init;
    var prev := Aggregate(init);
    var c := i.distCode;
    var p := KeyIs(DistCodeOf, c);
    var start := if c in prev.table then prev.table[c] else ZeroStats;
    assert Aggregate(xs).table[c] == Accumulate(start, i);
    if c !in prev.table {
      assert c !in DistCodes(init);
      forall k | 0 <= k < |init| ensures !p(init[k]) {
        assert DistCodes(init)[k] == init[k].distCode;
      }
      FilterNone(init, p);
    }
    forall b
      ensures Get(Accumulate(start, i), b) == Get(CalculateStats(Filter(xs, p)), b)
    {
      OwnBucket(init, i, start, b);
    }
    GetExtensional(Accumulate(start, i), CalculateStats(Filter(xs, p)));
  }

  /** Any other district: its totals are unchanged by the step. */
  lemma AggregateOtherStep(init: seq<Incident>, i: Incident, d: int)
    requires AggregatesAgree(init, Aggregate(init))
    requires d != i.distCode && d in Aggregate(init + [i]).table
    ensures Aggregate(init + [i]).table[d] == CalculateStats(Filter(init + [i], KeyIs(DistCodeOf, d)))
  {
    var xs := init + [i];
    assert xs[..|xs| - 1] == init;
    var p := KeyIs(DistCodeOf, d);
    FilterSnoc(init, i, p);
    assert DistCodeOf(i) == i.distCode;
    assert Filter(xs, p) == Filter(init, p) + [];
    assert Filter(init, p) + [] == Filter(init, p);
    assert Aggregate(xs).table[d] == Aggregate(init).table[d];
  }

  lemma AggregateStep(init: seq<Incident>, i: Incident)
    requires AggregatesAgree(init, Aggregate(init))
    ensures AggregatesAgree(init + [i], Aggregate(init + [i]))
  {
    var xs := init + [i];
    assert xs[..|xs| - 1] == init;
    assert DistCodes(xs) == DistCodes(init) + [i.distCode];
    assert DistCodes(xs)[..|xs| - 1] == DistCodes(init);
    forall d | d in Aggregate(xs).table
      ensures Aggregate(xs).table[d] == CalculateStats(Filter(xs, KeyIs(DistCodeOf, d)))
    {
      if d == i.distCode {
        AggregateOwnStep(init, i);
      } else {
        AggregateOtherStep(init, i, d);
      }
    }
  }

  /** The chart's single-pass aggregation agrees with the reports'
      `calculateStats` applied to each district's incidents, and its keys are
      the district codes in first-occurrence order. */
  lemma {:induction false} AggregateCorrect(xs: seq<Incident>)
    ensures AggregatesAgree(xs, Aggregate(xs))
  {
    if xs != [] {
      AggregateCorrect(xs[..|xs| - 1]);
      AggregateStep(xs[..|xs| - 1], xs[|xs| - 1]);
      LastSplit(xs);
    }
  }

  // ---------------------------------------------------------------------------
  // Rows

  /** JavaScript orders an object's keys that are array indices ascending,
      ahead of the other keys in insertion order. */
  predicate IsArrayIndex(c: int) {
    0 <= c < 0xFFFF_FFFF
  }

  predicate IsOtherKey(c: int) {
    !IsArrayIndex(c)
  }

  /** `Object.keys(aggregates).map(Number)` for keys inserted in the given order. */
  function ObjectKeyOrder(keys: seq<int>): (r: seq<int>)
    ensures forall c :: c in r <==> c in keys
    ensures multiset(r) == multiset(keys)
  {
    var indices := SortInts(Filter(keys, IsArrayIndex));
    assert forall c :: c in indices <==> c in multiset(indices);
    FilterMultiplicity(keys, IsArrayIndex);
    FilterMultiplicity(keys, IsOtherKey);
    assert multiset(indices + Filter(keys, IsOtherKey)) == multiset(indices) + multiset(Filter(keys, IsOtherKey));
    indices + Filter(keys, IsOtherKey)
  }

  /** The key order puts every array-index key before every other key, and
      the array-index keys in ascending order. */
  lemma ObjectKeyOrderSorted(keys: seq<int>)
    ensures var r := ObjectKeyOrder(keys);
            forall i, j :: 0 <= i < j < |r| && IsArrayIndex(r[i]) && IsArrayIndex(r[j]) ==> r[i] <= r[j]
    ensures var r := ObjectKeyOrder(keys);
            forall i, j :: 0 <= i < j < |r| && IsOtherKey(r[i]) ==> IsOtherKey(r[j])
  {
    var indices := SortInts(Filter(keys, IsArrayIndex));
    assert forall k :: 0 <= k < |indices| ==> IsArrayIndex(indices[k]) by {
      forall k | 0 <= k < |indices| ensures IsArrayIndex(indices[k]) {
        assert indices[k] in multiset(indices);
      }
    }
    IndicesThenOthers(indices, Filter(keys, IsOtherKey));
  }

  /** Sorted index keys followed by other keys: the index keys among them
      ascend, and no index key follows another key. */
  lemma IndicesThenOthers(indices: seq<int>, others: seq<int>)
    requires SortedInts(indices) && forall k :: 0 <= k < |indices| ==> IsArrayIndex(indices[k])
    requires forall k :: 0 <= k < |others| ==> IsOtherKey(others[k])
    ensures var r := indices + others;
            forall i, j :: 0 <= i < j < |r| && IsArrayIndex(r[i]) && IsArrayIndex(r[j]) ==> r[i] <= r[j]
    ensures var r := indices + others;
            forall i, j :: 0 <= i < j < |r| && IsOtherKey(r[i]) ==> IsOtherKey(r[j])
  {
  }

  /** A bar of the chart: the district's Hindi name and one value per visible series. */
  datatype ChartRow = ChartRow(name: string, values: seq<int>)

  function RowName(r: ChartRow): string { r.name }

  function IntValue(x: int): int { x }

  /** The visible series' values, in series order. */
  function RowValues(stats: ReportStats, active: seq<Series>): (vs: seq<int>)
    ensures |vs| == |active| && forall k :: 0 <= k < |active| ==> vs[k] == Get(stats, active[k].key)
  {
    seq(|active|, k requires 0 <= k < |active| => Get(stats, active[k].key))
  }

  function HasDistCode(c: int): District -> bool {
    (d: District) => d.code == c
  }

  /** The bar for district code `c` with the given totals: none when no master
      district has that code, or when the visible values add up to at most zero. */
  function RowOf(stats: ReportStats, c: int, active: seq<Series>, districts: seq<District>): (r: Option<ChartRow>)
    ensures r.Some? ==> Find(districts, HasDistCode(c)).Some?
    ensures r.Some? <==> Find(districts, HasDistCode(c)).Some? && Sum(RowValues(stats, active), IntValue) > 0
    ensures r.Some? ==> r.value == ChartRow(Find(districts, HasDistCode(c)).value.nameHi, RowValues(stats, active))
  {
    match Find(districts, HasDistCode(c))
    case None => None
    case Some(d) =>
      var vs := RowValues(stats, active);
      if Sum(vs, IntValue) > 0 then Some(ChartRow(d.nameHi, vs)) else None
  }

  /** The bar each code would give, in code order. */
  function Candidates(codes: seq<int>, table: map<int, ReportStats>, active: seq<Series>,
                      districts: seq<District>): (os: seq<Option<ChartRow>>)
    requires forall k :: 0 <= k < |codes| ==> codes[k] in table
    ensures |os| == |codes|
    ensures forall k :: 0 <= k < |codes| ==> os[k] == RowOf(table[codes[k]], codes[k], active, districts)
  {
    seq(|codes|, k requires 0 <= k < |codes| => RowOf(table[codes[k]], codes[k], active, districts))
  }

  /** The rows pushed while walking the codes in order. */
  function RowsFor(codes: seq<int>, table: map<int, ReportStats>, active: seq<Series>,
                   districts: seq<District>): seq<ChartRow>
    requires forall k :: 0 <= k < |codes| ==> codes[k] in table
  {
    Somes(Candidates(codes, table, active, districts))
  }

  lemma RowsForMembership(codes: seq<int>, table: map<int, ReportStats>, active: seq<Series>,
                          districts: seq<District>, r: ChartRow)
    requires forall k :: 0 <= k < |codes| ==> codes[k] in table
    ensures r in RowsFor(codes, table, active, districts) <==>
            exists k :: 0 <= k < |codes| && RowOf(table[codes[k]], codes[k], active, districts) == Some(r)
  {
    var os := Candidates(codes, table, active, districts);
    if Some(r) in os {
      var k :| 0 <= k < |os| && os[k] == Some(r);
      assert RowOf(table[codes[k]], codes[k], active, districts) == Some(r);
    }
  }

  /** The chart's data table and colours. */
  datatype ChartOutput = ChartOutput(header: seq<string>, rows: seq<ChartRow>, colors: seq<string>)

  function Labels(active: seq<Series>): (r: seq<string>)
    ensures |r| == |active| && forall k :: 0 <= k < |active| ==> r[k] == active[k].legend
  {
    seq(|active|, k requires 0 <= k < |active| => active[k].legend)
  }

  function Colors(active: seq<Series>): (r: seq<string>)
    ensures |r| == |active| && forall k :: 0 <= k < |active| ==> r[k] == active[k].color
  {
    seq(|active|, k requires 0 <= k < |active| => active[k].color)
  }

  /** The header row: the district column, then one label per visible series. */
  function Header(active: seq<Series>): (r: seq<string>)
    ensures |r| == |active| + 1 && r[0] == "District"
    ensures forall k :: 0 <= k < |active| ==> r[k + 1] == active[k].legend
  {
    ["District"] + Labels(active)
  }

  /** The aggregate keys, each with its totals. */
  lemma KeysInTable(xs: seq<Incident>)
    ensures forall k :: 0 <= k < |ObjectKeyOrder(Aggregate(xs).keys)| ==> ObjectKeyOrder(Aggregate(xs).keys)[k] in Aggregate(xs).table
  {
    AggregateCorrect(xs);
    var codes := ObjectKeyOrder(Aggregate(xs).keys);
    forall k | 0 <= k < |codes| ensures codes[k] in Aggregate(xs).table {
      assert codes[k] in codes;
    }
  }

  /** The bars in the order of the aggregate's keys, before sorting. */
  function UnsortedRows(incidents: seq<Incident>, year: int, v: Visibility, districts: seq<District>): seq<ChartRow>
  {
    var valid := Filter(incidents, ChartSelect(year));
    var agg := Aggregate(valid);
    KeysInTable(valid);
    RowsFor(ObjectKeyOrder(agg.keys), agg.table, ActiveSeries(v), districts)
  }

  /** The bars of the chart, sorted by district name. */
  function ChartRows(incidents: seq<Incident>, year: int, v: Visibility, districts: seq<District>): (rows: seq<ChartRow>)
    ensures SortedBy(rows, RowName)
    ensures multiset(rows) == multiset(UnsortedRows(incidents, year, v, districts))
    ensures forall r :: r in rows <==> r in UnsortedRows(incidents, year, v, districts)
  {
    var unsorted := UnsortedRows(incidents, year, v, districts);
    var sorted := SortBy(unsorted, RowName);
    assert forall r :: r in sorted <==> r in unsorted by {
      forall r ensures r in sorted <==> r in unsorted {
        assert r in sorted <==> r in multiset(sorted);
        assert r in unsorted <==> r in multiset(unsorted);
      }
    }
    sorted
  }

  /** Every bar holds one value per visible series. */
  lemma RowWidths(incidents: seq<Incident>, year: int, v: Visibility, districts: seq<District>)
    ensures forall r :: r in ChartRows(incidents, year, v, districts) ==> |r.values| == |ActiveSeries(v)|
  {
    var valid := Filter(incidents, ChartSelect(year));
    var agg := Aggregate(valid);
    KeysInTable(valid);
    var codes := ObjectKeyOrder(agg.keys);
    forall r | r in ChartRows(incidents, year, v, districts)
      ensures |r.values| == |ActiveSeries(v)|
    {
      RowsForMembership(codes, agg.table, ActiveSeries(v), districts, r);
    }
  }

  /** The chart of `year` under the visibility `v`. */
  function ChartData(incidents: seq<Incident>, year: int, v: Visibility, districts: seq<District>): (out: ChartOutput)
    ensures |out.header| == |out.colors| + 1 && out.header[0] == "District"
    ensures SortedBy(out.rows, RowName)
    ensures forall r :: r in out.rows ==> |r.values| == |out.colors|
  {
    var active := ActiveSeries(v);
    RowWidths(incidents, year, v, districts);
    ChartOutput(Header(active), ChartRows(incidents, year, v, districts), Colors(active))
  }

  /** The colours handed to the chart: the visible series' colours, or the grey
      fallback when none is visible. */
  function ChartColors(out: ChartOutput): (r: seq<string>)
    ensures |r| >= 1
    ensures out.colors != [] ==> r == out.colors
    ensures out.colors == [] ==> r == [FallbackColor]
  {
    if |out.colors| > 0 then out.colors else [FallbackColor]
  }

  /** The reference bar of district code `c`, from the reports' statistics. */
  function ExpectedRow(incidents: seq<Incident>, year: int, v: Visibility, districts: seq<District>, c: int): Option<ChartRow> {
    var valid := Filter(incidents, ChartSelect(year));
    RowOf(CalculateStats(Filter(valid, KeyIs(DistCodeOf, c))), c, ActiveSeries(v), districts)
  }

  /** The bars are exactly the reference bars of the district codes that occur
      among the year's undeleted incidents: one per code with a master district
      and a positive visible total, holding that district's statistics;
      `ChartRowsCount` states that there is one per code. */
  lemma ChartRowsExact(incidents: seq<Incident>, year: int, v: Visibility, districts: seq<District>, r: ChartRow)
    ensures r in ChartRows(incidents, year, v, districts) <==>
            exists c :: c in DistCodes(Filter(incidents, ChartSelect(year))) && ExpectedRow(incidents, year, v, districts, c) == Some(r)
  {
    UnsortedRowsExact(incidents, year, v, districts, r);
  }

  /** `ChartRowsExact` before sorting. */
  lemma UnsortedRowsExact(incidents: seq<Incident>, year: int, v: Visibility, districts: seq<District>, r: ChartRow)
    ensures r in UnsortedRows(incidents, year, v, districts) <==>
            exists c :: c in DistCodes(Filter(incidents, ChartSelect(year))) && ExpectedRow(incidents, year, v, districts, c) == Some(r)
  {
    var valid := Filter(incidents, ChartSelect(year));
    var agg := Aggregate(valid);
    KeysInTable(valid);
    var active := ActiveSeries(v);
    var codes := ObjectKeyOrder(agg.keys);
    var expected := (c: int) => ExpectedRow(incidents, year, v, districts, c);
    assert UnsortedRows(incidents, year, v, districts) == RowsFor(codes, agg.table, active, districts);
    KeyCodesExpected(incidents, year, v, districts, codes);
    RowsForExact(codes, agg.table, active, districts, DistCodes(valid), expected, r);
  }

  /** The occurring district codes that have a reference bar. */
  function HasBar(incidents: seq<Incident>, year: int, v: Visibility, districts: seq<District>): int -> bool {
    c => ExpectedRow(incidents, year, v, districts, c).Some?
  }

  /** There is one bar per occurring district code with a reference bar:
      with `ChartRowsExact`, no code's bar is missing or repeated. */
  lemma ChartRowsCount(incidents: seq<Incident>, year: int, v: Visibility, districts: seq<District>)
    ensures |ChartRows(incidents, year, v, districts)|
            == Count(Distinct(DistCodes(Filter(incidents, ChartSelect(year)))), HasBar(incidents, year, v, districts))
  {
    var rows := ChartRows(incidents, year, v, districts);
    assert |rows| == |multiset(rows)|;
    assert |UnsortedRows(incidents, year, v, districts)| == |multiset(UnsortedRows(incidents, year, v, districts))|;
    UnsortedRowsCount(incidents, year, v, districts);
  }

  /** `ChartRowsCount` before sorting. */
  lemma UnsortedRowsCount(incidents: seq<Incident>, year: int, v: Visibility, districts: seq<District>)
    ensures |UnsortedRows(incidents, year, v, districts)|
            == Count(Distinct(DistCodes(Filter(incidents, ChartSelect(year)))), HasBar(incidents, year, v, districts))
  {
    var valid := Filter(incidents, ChartSelect(year));
    var agg := Aggregate(valid);
    KeysInTable(valid);
    var codes := ObjectKeyOrder(agg.keys);
    assert UnsortedRows(incidents, year, v, districts) == RowsFor(codes, agg.table, ActiveSeries(v), districts);
    KeyCodesExpected(incidents, year, v, districts, codes);
    KeyOrderPermutesCodes(valid);
    RowsForCount(codes, agg.table, ActiveSeries(v), districts, Distinct(DistCodes(valid)),
                 HasBar(incidents, year, v, districts));
  }

  /** The key order holds each occurring district code once. */
  lemma KeyOrderPermutesCodes(xs: seq<Incident>)
    ensures multiset(ObjectKeyOrder(Aggregate(xs).keys)) == multiset(Distinct(DistCodes(xs)))
  {
    AggregateCorrect(xs);
  }

  /** The bars built from a permutation of `listed` number the listed codes
      that have a bar. */
  lemma RowsForCount(codes: seq<int>, table: map<int, ReportStats>, active: seq<Series>, districts: seq<District>,
                     listed: seq<int>, hasBar: int -> bool)
    requires forall k :: 0 <= k < |codes| ==> codes[k] in table
    requires forall k :: 0 <= k < |codes| ==>
               RowOf(table[codes[k]], codes[k], active, districts).Some? == hasBar(codes[k])
    requires multiset(codes) == multiset(listed)
    ensures |RowsFor(codes, table, active, districts)| == Count(listed, hasBar)
  {
    var os := Candidates(codes, table, active, districts);
    SomesLength(os);
    CountIndexwise(os, codes, IsSome, hasBar);
    CountPermutation(codes, listed, hasBar);
  }

  /** The aggregate's keys are the occurring district codes, and the table's
      bar of each is its reference bar. */
  lemma KeyCodesExpected(incidents: seq<Incident>, year: int, v: Visibility, districts: seq<District>, codes: seq<int>)
    requires codes == ObjectKeyOrder(Aggregate(Filter(incidents, ChartSelect(year))).keys)
    ensures forall c :: c in DistCodes(Filter(incidents, ChartSelect(year))) ==> c in codes
    ensures forall k :: 0 <= k < |codes| ==>
              && codes[k] in DistCodes(Filter(incidents, ChartSelect(year)))
              && codes[k] in Aggregate(Filter(incidents, ChartSelect(year))).table
              && RowOf(Aggregate(Filter(incidents, ChartSelect(year))).table[codes[k]], codes[k], ActiveSeries(v), districts)
                 == ExpectedRow(incidents, year, v, districts, codes[k])
  {
    var valid := Filter(incidents, ChartSelect(year));
    forall c | c in DistCodes(valid)
      ensures c in codes
    {
      TableRowIsExpected(incidents, year, v, districts, c);
    }
    forall k | 0 <= k < |codes|
      ensures codes[k] in DistCodes(valid)
      ensures codes[k] in Aggregate(valid).table
      ensures RowOf(Aggregate(valid).table[codes[k]], codes[k], ActiveSeries(v), districts)
              == ExpectedRow(incidents, year, v, districts, codes[k])
    {
      assert codes[k] in codes;
      TableRowIsExpected(incidents, year, v, districts, codes[k]);
    }
  }

  /** The bars built from a table are the reference bars of the listed codes,
      when the table's bar of every code is its reference bar. */
  lemma RowsForExact(codes: seq<int>, table: map<int, ReportStats>, active: seq<Series>, districts: seq<District>,
                     listed: seq<int>, expected: int -> Option<ChartRow>, r: ChartRow)
    requires forall c :: c in listed ==> c in codes
    requires forall k :: 0 <= k < |codes| ==> codes[k] in listed
    requires forall k :: 0 <= k < |codes| ==>
               codes[k] in table && RowOf(table[codes[k]], codes[k], active, districts) == expected(codes[k])
    ensures forall k :: 0 <= k < |codes| ==> codes[k] in table
    ensures r in RowsFor(codes, table, active, districts) <==> exists c :: c in listed && expected(c) == Some(r)
  {
    RowsForMembership(codes, table, active, districts, r);
    if r in RowsFor(codes, table, active, districts) {
      var k :| 0 <= k < |codes| && RowOf(table[codes[k]], codes[k], active, districts) == Some(r);
      assert codes[k] in listed && expected(codes[k]) == Some(r);
    }
    if exists c :: c in listed && expected(c) == Some(r) {
      var c :| c in listed && expected(c) == Some(r);
      var k :| 0 <= k < |codes| && codes[k] == c;
    }
  }

  lemma TableRowIsExpected(incidents: seq<Incident>, year: int, v: Visibility, districts: seq<District>, c: int)
    ensures var valid := Filter(incidents, ChartSelect(year));
            c in ObjectKeyOrder(Aggregate(valid).keys) <==> c in DistCodes(valid)
    ensures var valid := Filter(incidents, ChartSelect(year));
            c in Aggregate(valid).table <==> c in DistCodes(valid)
    ensures var valid := Filter(incidents, ChartSelect(year));
            c in Aggregate(valid).table ==>
              RowOf(Aggregate(valid).table[c], c, ActiveSeries(v), districts) == ExpectedRow(incidents, year, v, districts, c)
  {
    AggregateCorrect(Filter(incidents, ChartSelect(year)));
  }

  /** With every series switched off the chart has only the district column,
      no bars, and falls back to the grey colour. */
  lemma AllSeriesOff(incidents: seq<Incident>, year: int, v: Visibility, districts: seq<District>)
    requires forall b :: !Visible(v, b)
    ensures var out := ChartData(incidents, year, v, districts);
            out.header == ["District"] && out.rows == [] && out.colors == [] && ChartColors(out) == [FallbackColor]
  {
    var rows := ChartRows(incidents, year, v, districts);
    if rows != [] {
      ChartRowsExact(incidents, year, v, districts, rows[0]);
    }
  }
}
