/** The damage-bucket aggregation shared by the tehsil report, the monitoring
    report and the district chart (`calculateStats`): six sums of incident
    quantities, one per statistical bucket, keyed on the damage type and,
    for government assets, on whether the damage subtype is the road subtype. */
module Stats {
  import opened Base
  import opened Types

  /** The six bucket totals of a report row. */
  datatype ReportStats = ReportStats(
    lossOfLife: int,
    houseDamage: int,
    animalLoss: int,
    cropDamage: int,
    gplLoss: int,
    roadDamage: int)

  const ZeroStats := ReportStats(0, 0, 0, 0, 0, 0)

  /** Damage type ids of the master taxonomy that select a bucket. */
  const LossOfLifeType: int := 1
  const HouseDamageType: int := 2
  const AnimalLossType: int := 3
  const CropDamageType: int := 4
  const AssetType: int := 5

  /** The damage subtype id of roads, a subtype of government assets. */
  const RoadSubtype: int := 9

  datatype Bucket = LossOfLife | HouseDamage | AnimalLoss | CropDamage | GplLoss | RoadDamage

  function Get(s: ReportStats, b: Bucket): int {
    match b
    case LossOfLife => s.lossOfLife
    case HouseDamage => s.houseDamage
    case AnimalLoss => s.animalLoss
    case CropDamage => s.cropDamage
    case GplLoss => s.gplLoss
    case RoadDamage => s.roadDamage
  }

  /** Two records agreeing on every bucket are equal. */
  lemma GetExtensional(r: ReportStats, s: ReportStats)
    requires forall b :: Get(r, b) == Get(s, b)
    ensures r == s
  {
    assert Get(r, LossOfLife) == Get(s, LossOfLife);
    assert Get(r, HouseDamage) == Get(s, HouseDamage);
    assert Get(r, AnimalLoss) == Get(s, AnimalLoss);
    assert Get(r, CropDamage) == Get(s, CropDamage);
    assert Get(r, GplLoss) == Get(s, GplLoss);
    assert Get(r, RoadDamage) == Get(s, RoadDamage);
  }

  function Add(a: ReportStats, b: ReportStats): ReportStats {
    ReportStats(a.lossOfLife + b.lossOfLife, a.houseDamage + b.houseDamage,
                a.animalLoss + b.animalLoss, a.cropDamage + b.cropDamage,
                a.gplLoss + b.gplLoss, a.roadDamage + b.roadDamage)
  }

  /** The sum of the six buckets. */
  function Total(s: ReportStats): int {
    s.lossOfLife + s.houseDamage + s.animalLoss + s.cropDamage + s.gplLoss + s.roadDamage
  }

  /** `i.DM_Qty || 0`: a missing (or not-a-number) quantity counts as zero. */
  function Qty(i: Incident): int {
    i.qty.GetOr(0)
  }

  function SumQty(xs: seq<Incident>): int {
    Sum(xs, Qty)
  }

  // The six filters of `calculateStats`, as the report and chart code writes them.
  predicate IsLossOfLife(i: Incident) { i.dmType == Some(LossOfLifeType) }
  predicate IsHouseDamage(i: Incident) { i.dmType == Some(HouseDamageType) }
  predicate IsAnimalLoss(i: Incident) { i.dmType == Some(AnimalLossType) }
  predicate IsCropDamage(i: Incident) { i.dmType == Some(CropDamageType) }
  predicate IsGplLoss(i: Incident) { i.dmType == Some(AssetType) && i.dmSubtype != Some(RoadSubtype) }
  predicate IsRoadDamage(i: Incident) { i.dmType == Some(AssetType) && i.dmSubtype == Some(RoadSubtype) }

  /** The filter `calculateStats` uses for bucket `b`. */
  function Rule(b: Bucket): Incident -> bool {
    match b
    case LossOfLife => IsLossOfLife
    case HouseDamage => IsHouseDamage
    case AnimalLoss => IsAnimalLoss
    case CropDamage => IsCropDamage
    case GplLoss => IsGplLoss
    case RoadDamage => IsRoadDamage
  }

  /** Reference classification: the single bucket an incident's damage falls
      into, or none when its damage type is absent or outside 1..5. */
  function Classify(i: Incident): Option<Bucket> {
    match i.dmType
    case Some(t) =>
      if t == LossOfLifeType then Some(LossOfLife)
      else if t == HouseDamageType then Some(HouseDamage)
      else if t == AnimalLossType then Some(AnimalLoss)
      else if t == CropDamageType then Some(CropDamage)
      else if t == AssetType then
        (if i.dmSubtype == Some(RoadSubtype) then Some(RoadDamage) else Some(GplLoss))
      else None
    case None => None
  }

  predicate IsAsset(i: Incident) { i.dmType == Some(AssetType) }

  /** The quantity an incident contributes to bucket `b` under `Classify`. */
  function BucketQty(b: Bucket): Incident -> int {
    i => if Classify(i) == Some(b) then Qty(i) else 0
  }

  /** The quantity an incident contributes to some bucket under `Classify`. */
  function ClassifiedQty(i: Incident): int {
    if Classify(i).Some? then Qty(i) else 0
  }

  /** The six filters pick out exactly the incidents `Classify` puts in that
      bucket: the rules are mutually exclusive. */
  lemma RuleMatchesClassify(b: Bucket, i: Incident)
    ensures Rule(b)(i) <==> Classify(i) == Some(b)
  {
  }

  /** `calculateStats`: every bucket is the sum of the quantities of the
      incidents that the reference classification puts in it. */
  function CalculateStats(xs: seq<Incident>): (r: ReportStats)
    ensures forall b :: Get(r, b) == Sum(xs, BucketQty(b))
    ensures xs == [] ==> r == ZeroStats
  {
    var r := ReportStats(
      SumQty(Filter(xs, IsLossOfLife)),
      SumQty(Filter(xs, IsHouseDamage)),
      SumQty(Filter(xs, IsAnimalLoss)),
      SumQty(Filter(xs, IsCropDamage)),
      SumQty(Filter(xs, IsGplLoss)),
      SumQty(Filter(xs, IsRoadDamage)));
    assert forall b :: Get(r, b) == Sum(xs, BucketQty(b)) by {
      forall b
        ensures Get(r, b) == Sum(xs, BucketQty(b))
      {
        SumFilter(xs, Rule(b), Qty);
        forall k | 0 <= k < |xs|
          ensures Masked(Rule(b), Qty)(xs[k]) == BucketQty(b)(xs[k])
        {
          RuleMatchesClassify(b, xs[k]);
        }
        SumPointwise(xs, Masked(Rule(b), Qty), BucketQty(b));
      }
    }
    r
  }

  /** Aggregating a concatenation adds the aggregates of the parts. */
  lemma CalculateStatsAppend(a: seq<Incident>, b: seq<Incident>)
    ensures CalculateStats(a + b) == Add(CalculateStats(a), CalculateStats(b))
  {
    var r := CalculateStats(a + b);
    var s := Add(CalculateStats(a), CalculateStats(b));
    forall bk
      ensures Get(r, bk) == Get(s, bk)
    {
      SumAppend(a, b, BucketQty(bk));
    }
    GetExtensional(r, s);
  }

  /** The aggregate does not depend on the order of the incidents. */
  lemma CalculateStatsPermutation(a: seq<Incident>, b: seq<Incident>)
    requires multiset(a) == multiset(b)
    ensures CalculateStats(a) == CalculateStats(b)
  {
    var r := CalculateStats(a);
    var s := CalculateStats(b);
    forall bk
      ensures Get(r, bk) == Get(s, bk)
    {
      SumPermutation(a, b, BucketQty(bk));
    }
    GetExtensional(r, s);
  }

  /** One bucket of the aggregate of a single incident. */
  lemma StatsOfOneBucket(i: Incident, b: Bucket)
    ensures Get(CalculateStats([i]), b) == if Classify(i) == Some(b) then Qty(i) else 0
  {
    assert [i][1..] == [];
    assert Get(CalculateStats([i]), b) == Sum([i], BucketQty(b));
  }

  /** The bucket record of a single incident under `Classify`. */
  function OneStats(i: Incident): ReportStats {
    match Classify(i)
    case None => ZeroStats
    case Some(LossOfLife) => ZeroStats.(lossOfLife := Qty(i))
    case Some(HouseDamage) => ZeroStats.(houseDamage := Qty(i))
    case Some(AnimalLoss) => ZeroStats.(animalLoss := Qty(i))
    case Some(CropDamage) => ZeroStats.(cropDamage := Qty(i))
    case Some(GplLoss) => ZeroStats.(gplLoss := Qty(i))
    case Some(RoadDamage) => ZeroStats.(roadDamage := Qty(i))
  }

  lemma OneStatsFacts(i: Incident)
    ensures Total(OneStats(i)) == ClassifiedQty(i)
    ensures OneStats(i).gplLoss + OneStats(i).roadDamage == (if IsAsset(i) then Qty(i) else 0)
  {
    match Classify(i)
    case None =>
    case Some(b) =>
  }

  /** The aggregate of a single incident: its quantity in its own bucket, zero elsewhere. */
  lemma StatsOfOne(i: Incident)
    ensures CalculateStats([i]) == OneStats(i)
  {
    var one := CalculateStats([i]);
    var o := OneStats(i);
    forall b
      ensures Get(one, b) == Get(o, b)
    {
      StatsOfOneBucket(i, b);
      OneStatsBucket(i, b);
    }
    GetExtensional(one, o);
  }

  lemma OneStatsBucket(i: Incident, b: Bucket)
    ensures Get(OneStats(i), b) == if Classify(i) == Some(b) then Qty(i) else 0
  {
  }

  /** No double counting: the six buckets together hold exactly
      the quantities of the incidents that have a bucket. */
  lemma {:induction false} TotalIsClassifiedQuantity(xs: seq<Incident>)
    ensures Total(CalculateStats(xs)) == Sum(xs, ClassifiedQty)
  {
    if xs != [] {
      var h := CalculateStats([xs[0]]);
      var t := CalculateStats(xs[1..]);
      assert CalculateStats(xs) == Add(h, t) by {
        assert xs == [xs[0]] + xs[1..];
        CalculateStatsAppend([xs[0]], xs[1..]);
      }
      assert Total(h) == ClassifiedQty(xs[0]) by {
        StatsOfOne(xs[0]);
        OneStatsFacts(xs[0]);
      }
      TotalIsClassifiedQuantity(xs[1..]);
      assert Total(Add(h, t)) == Total(h) + Total(t);
    }
  }

  /** With non-negative quantities the bucket sum never exceeds the sum of all quantities. */
  lemma TotalBound(xs: seq<Incident>)
    requires forall k :: 0 <= k < |xs| ==> Qty(xs[k]) >= 0
    ensures 0 <= Total(CalculateStats(xs)) <= SumQty(xs)
  {
    TotalIsClassifiedQuantity(xs);
    ClassifiedBound(xs);
  }

  lemma {:induction false} ClassifiedBound(xs: seq<Incident>)
    requires forall k :: 0 <= k < |xs| ==> Qty(xs[k]) >= 0
    ensures 0 <= Sum(xs, ClassifiedQty) <= SumQty(xs)
  {
    if xs != [] {
      ClassifiedBound(xs[1..]);
    }
  }

  /** Government-asset loss and road damage split the type-5 total between them. */
  lemma {:induction false} AssetSplit(xs: seq<Incident>)
    ensures CalculateStats(xs).gplLoss + CalculateStats(xs).roadDamage == SumQty(Filter(xs, IsAsset))
  {
    if xs != [] {
      assert xs == [xs[0]] + xs[1..];
      CalculateStatsAppend([xs[0]], xs[1..]);
      AssetSplit(xs[1..]);
      StatsOfOne(xs[0]);
      OneStatsFacts(xs[0]);
      assert Filter(xs, IsAsset) == (if IsAsset(xs[0]) then [xs[0]] else []) + Filter(xs[1..], IsAsset);
      SumAppend(if IsAsset(xs[0]) then [xs[0]] else [], Filter(xs[1..], IsAsset), Qty);
    }
  }

  /** An incident without a bucket changes no total. */
  lemma UnclassifiedAddsNothing(xs: seq<Incident>, i: Incident)
    requires Classify(i) == None
    ensures CalculateStats(xs + [i]) == CalculateStats(xs)
  {
    CalculateStatsAppend(xs, [i]);
    StatsOfOne(i);
  }
}
