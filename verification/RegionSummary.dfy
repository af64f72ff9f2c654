/** Top regions and the region summary table: `ssat/report/assembler.py`. */
module RegionSummary {
  import opened Prelude
  import opened Ordering
  import opened Sums
  import opened Grouping
  import opened Mapping
  import opened RegionKeys
  import opened Items
  import opened Aggregate
  import Rankings
  import RankCorrelation

  // ------------------------------------------------------------ top regions

  /** One entry of the `sample_id -> region_key` dict. */
  datatype Top = Top(sample: string, region: string)

  /** `(-x.degradation, x.region_key) <= (-y.degradation, y.region_key)`, for known degradations. */
  predicate RanksBefore(x: SpatialRow, y: SpatialRow) {
    KnownValue(x) > KnownValue(y) || (KnownValue(x) == KnownValue(y) && StrLe(x.key.region, y.key.region))
  }

  /** `min(rows, key=...)`: the first minimiser. */
  function Leader(rows: seq<SpatialRow>): SpatialRow
    requires rows != []
  {
    if |rows| == 1 || RanksBefore(rows[0], Leader(rows[1..])) then rows[0] else Leader(rows[1..])
  }

  function KnownRows(spatial: seq<SpatialRow>, sample: string): seq<SpatialRow> {
    Filter(Select(spatial, Rankings.SpatialSample, sample), IsKnown)
  }

  function IsScored(spatial: seq<SpatialRow>): string -> bool {
    sample => KnownRows(spatial, sample) != []
  }

  function TopOf(spatial: seq<SpatialRow>): string -> Top {
    sample => Top(sample, if KnownRows(spatial, sample) == [] then ""
                  else Leader(KnownRows(spatial, sample)).key.region)
  }

  function TopRegions(spatial: seq<SpatialRow>): seq<Top> {
    TopsOf(Keys(spatial, Rankings.SpatialSample), spatial)
  }

  function TopsOf(samples: seq<string>, spatial: seq<SpatialRow>): seq<Top> {
    MapSeq(Filter(samples, IsScored(spatial)), TopOf(spatial))
  }

  lemma OneMoreTop(samples: seq<string>, spatial: seq<SpatialRow>, i: nat)
    requires i < |samples|
    ensures TopsOf(samples[..i + 1], spatial)
            == TopsOf(samples[..i], spatial)
              + (if IsScored(spatial)(samples[i]) then [TopOf(spatial)(samples[i])] else [])
  {
    CollectStep(samples, i, IsScored(spatial), TopOf(spatial));
  }

  /** `_dataset_top_region_by_sample`. */
  method DatasetTopRegions(spatial: seq<SpatialRow>) returns (tops: seq<Top>)
    ensures tops == TopRegions(spatial)
  {
    var order, groups := GroupRows(spatial, Rankings.SpatialSample);
    tops := TopsInOrder(order, groups, spatial);
  }

  method TopsInOrder(order: seq<string>, groups: map<string, seq<SpatialRow>>, ghost spatial: seq<SpatialRow>)
    returns (tops: seq<Top>)
    requires forall sample :: sample in order ==>
             sample in groups && groups[sample] == Select(spatial, Rankings.SpatialSample, sample)
    ensures tops == TopsOf(order, spatial)
  {
    tops := [];
    for i := 0 to |order|
      invariant tops == TopsOf(order[..i], spatial)
    {
      var sample := order[i];
      assert sample in order;
      OneMoreTop(order, spatial, i);
      var scored := Filter(groups[sample], IsKnown);
      if scored != [] {
        tops := tops + [Top(sample, Leader(scored).key.region)];
      }
    }
    assert order[..|order|] == order;
  }

  lemma {:induction false} LeaderRanksFirst(rows: seq<SpatialRow>)
    requires rows != []
    ensures Leader(rows) in rows && forall row :: row in rows ==> RanksBefore(Leader(rows), row)
  {
    StrLeIsTotalOrder();
    if |rows| > 1 {
      LeaderRanksFirst(rows[1..]);
      assert rows == [rows[0]] + rows[1..];
    }
  }

  predicate KnownIn(row: SpatialRow, spatial: seq<SpatialRow>, sample: string) {
    row in spatial && row.key.sample == sample && row.degradation.Some?
  }

  lemma KnownRowsMembers(spatial: seq<SpatialRow>, sample: string)
    ensures forall row :: row in KnownRows(spatial, sample) <==> KnownIn(row, spatial, sample)
  {
    SelectMembers(spatial, Rankings.SpatialSample, sample);
    FilterMembers(Select(spatial, Rankings.SpatialSample, sample), IsKnown);
  }

  /** The named region is one of the sample's, no other has a larger degradation, and ties go to the smaller key. */
  ghost predicate IsTop(top: Top, spatial: seq<SpatialRow>) {
    exists best :: KnownIn(best, spatial, top.sample) && best.key.region == top.region
                   && forall row :: KnownIn(row, spatial, top.sample) ==> RanksBefore(best, row)
  }

  function TopSample(top: Top): string { top.sample }

  /** One entry for each sample with a known value and no others, and it names that sample's top region. */
  lemma TopRegionsMeaning(spatial: seq<SpatialRow>)
    ensures var tops := TopRegions(spatial);
            && Distinct(MapSeq(tops, TopSample))
            && (forall top :: top in tops ==> IsTop(top, spatial))
            && (forall row :: row in spatial && row.degradation.Some? ==> exists top ::
                top in tops && top.sample == row.key.sample)
  {
    var samples := Filter(Keys(spatial, Rankings.SpatialSample), IsScored(spatial));
    var tops := TopRegions(spatial);
    KeysAreGroups(spatial, Rankings.SpatialSample);
    FilterDistinct(Keys(spatial, Rankings.SpatialSample), IsScored(spatial));
    FilterMembers(Keys(spatial, Rankings.SpatialSample), IsScored(spatial));
    assert MapSeq(tops, TopSample) == samples;
    forall top | top in tops ensures IsTop(top, spatial) {
      var i :| 0 <= i < |tops| && tops[i] == top;
      assert samples[i] in samples;
      KnownRowsMembers(spatial, samples[i]);
      LeaderRanksFirst(KnownRows(spatial, samples[i]));
      assert KnownIn(Leader(KnownRows(spatial, samples[i])), spatial, top.sample);
    }
    forall row | row in spatial && row.degradation.Some?
      ensures exists top :: top in tops && top.sample == row.key.sample
    {
      KnownRowsMembers(spatial, row.key.sample);
      assert KnownIn(row, spatial, row.key.sample);
      assert Rankings.SpatialSample(row) == row.key.sample;
      assert row.key.sample in samples;
      var i :| 0 <= i < |samples| && samples[i] == row.key.sample;
      assert tops[i] in tops;
    }
  }

  // ---------------------------------------------------------- weighted means

  datatype Weighted = Weighted(value: Option<real>, weight: int)

  predicate Usable(pair: Weighted) { pair.value.Some? && pair.weight > 0 }

  function Weigh(x: real, n: int): real { x * n as real }

  function WeightedValue(pair: Weighted): real {
    if pair.value.Some? then Weigh(pair.value.value, pair.weight) else 0.0
  }

  function WeightOf(pair: Weighted): real { pair.weight as real }

  /** `_weighted_mean`. */
  function WeightedMean(pairs: seq<Weighted>): Option<real> {
    var usable := Filter(pairs, Usable);
    var weight := Total(usable, WeightOf);
    if weight == 0.0 then None else Some(Total(usable, WeightedValue) / weight)
  }

  // -------------------------------------------------------------- the summary

  const SKELETON := "skeleton_parts"

  datatype SummaryRow = SummaryRow(
    key: string, regionId: string, kind: string,
    meanDegradation: Option<real>, flipRate: Option<real>, nValid: nat, share: Option<real>)

  predicate IsSkeleton(row: RegionRow) { row.kind == SKELETON }

  predicate NotSkeleton(row: RegionRow) { row.kind != SKELETON }

  function RowRegion(row: RegionRow): string { row.key.region }

  function RowFamily(row: RegionRow): string { RegionIdOf(row.key.region) }

  function TopRegion(top: Top): string { top.region }

  function TopFamily(top: Top): string { RegionIdOf(top.region) }

  predicate BySummaryKey(x: SummaryRow, y: SummaryRow) { StrLe(x.key, y.key) }

  function Fraction(count: nat, scored: nat): real
    requires scored > 0
  {
    (count as real) / (scored as real)
  }

  function Share(count: nat, scored: nat): Option<real> {
    if scored == 0 then None else Some(Fraction(count, scored))
  }

  function PlainRow(tops: seq<Top>): RegionRow -> SummaryRow {
    (row: RegionRow) =>
      SummaryRow(row.key.region, RegionIdOf(row.key.region), row.kind, row.metricMean, row.flipRate, row.nValid,
                 Share(|Select(tops, TopRegion, row.key.region)|, |tops|))
  }

  function MeanPart(row: RegionRow): Weighted { Weighted(row.metricMean, row.nValid) }

  function FlipPart(row: RegionRow): Weighted { Weighted(row.flipRate, row.nValid) }

  function SumValid(rows: seq<RegionRow>): nat {
    if rows == [] then 0 else rows[0].nValid + SumValid(rows[1..])
  }

  function FamilySummary(group: seq<RegionRow>, id: string, count: nat, scored: nat): SummaryRow {
    SummaryRow(id, id, SKELETON, WeightedMean(MapSeq(group, MeanPart)), WeightedMean(MapSeq(group, FlipPart)),
               SumValid(group), Share(count, scored))
  }

  function FamilyRow(skeletons: seq<RegionRow>, tops: seq<Top>): string -> SummaryRow {
    id => FamilySummary(Select(skeletons, RowFamily, id), id, |Select(tops, TopFamily, id)|, |tops|)
  }

  function Families(regionRows: seq<RegionRow>): seq<string> {
    SortBy(Keys(Filter(regionRows, IsSkeleton), RowFamily), StrLe)
  }

  function SummaryRows(regionRows: seq<RegionRow>, tops: seq<Top>): seq<SummaryRow> {
    SortBy(MapSeq(Filter(regionRows, NotSkeleton), PlainRow(tops))
           + MapSeq(Families(regionRows), FamilyRow(Filter(regionRows, IsSkeleton), tops)), BySummaryKey)
  }

  /** `counts.get(k, 0)`. */
  function Count(counts: map<string, nat>, k: string): nat { if k in counts then counts[k] else 0 }

  /** `Counter(tag(top) for top in tops)`. */
  method CountBy(tops: seq<Top>, tag: Top -> string) returns (counts: map<string, nat>)
    ensures forall k {:trigger Count(counts, k)} :: Count(counts, k) == |Select(tops, tag, k)|
  {
    counts := map[];
    for i := 0 to |tops|
      invariant forall k {:trigger Count(counts, k)} :: Count(counts, k) == |Select(tops[..i], tag, k)|
    {
      var k := tag(tops[i]);
      assert tops[..i + 1] == tops[..i] + [tops[i]];
      forall j ensures |Select(tops[..i + 1], tag, j)| == |Select(tops[..i], tag, j)| + (if j == k then 1 else 0) {
        SelectAppend(tops[..i], [tops[i]], tag, j);
      }
      ghost var before := counts;
      counts := counts[k := Count(counts, k) + 1];
      assert forall j {:trigger Count(counts, j)} :: Count(counts, j) == Count(before, j) + (if j == k then 1 else 0);
    }
    assert tops[..|tops|] == tops;
  }

  method PlainRows(rows: seq<RegionRow>, tops: seq<Top>) returns (out: seq<SummaryRow>)
    ensures out == MapSeq(rows, PlainRow(tops))
  {
    var counts := CountBy(tops, TopRegion);
    out := [];
    for i := 0 to |rows|
      invariant |out| == i && forall j :: 0 <= j < i ==> out[j] == PlainRow(tops)(rows[j])
    {
      var row := rows[i];
      var count := Count(counts, row.key.region);
      out := out + [SummaryRow(row.key.region, RegionIdOf(row.key.region), row.kind, row.metricMean, row.flipRate,
                               row.nValid, Share(count, |tops|))];
    }
  }

  method FamilyRows(skeletons: seq<RegionRow>, tops: seq<Top>) returns (out: seq<SummaryRow>)
    ensures out == MapSeq(SortBy(Keys(skeletons, RowFamily), StrLe), FamilyRow(skeletons, tops))
  {
    var counts := CountBy(tops, TopFamily);
    var keys, grouped := GroupRows(skeletons, RowFamily);
    SortMembers(keys, StrLe);
    out := SummariseFamilies(SortBy(keys, StrLe), grouped, counts, |tops|, FamilyRow(skeletons, tops));
  }

  method SummariseFamilies(order: seq<string>, grouped: map<string, seq<RegionRow>>, counts: map<string, nat>,
                           scored: nat,
                           ghost rowOf: string -> SummaryRow)
    returns (out: seq<SummaryRow>)
    requires forall id :: id in order ==>
             id in grouped && rowOf(id) == FamilySummary(grouped[id], id, Count(counts, id), scored)
    ensures out == MapSeq(order, rowOf)
  {
    out := [];
    for i := 0 to |order|
      invariant |out| == i && forall j :: 0 <= j < i ==> out[j] == rowOf(order[j])
    {
      assert order[i] in order;
      out := out + [FamilySummary(grouped[order[i]], order[i], Count(counts, order[i]), scored)];
    }
  }

  /** `_build_region_summary`. */
  method BuildRegionSummary(regionRows: seq<RegionRow>, tops: seq<Top>) returns (rows: seq<SummaryRow>)
    ensures rows == SummaryRows(regionRows, tops)
  {
    var plain := PlainRows(Filter(regionRows, NotSkeleton), tops);
    var families := FamilyRows(Filter(regionRows, IsSkeleton), tops);
    rows := SortBy(plain + families, BySummaryKey);
  }

  // ------------------------------------------------------------- what rows hold

  function NamesRegion(region: string): Top -> bool { (top: Top) => top.region == region }

  function NamesFamily(id: string): Top -> bool { (top: Top) => RegionIdOf(top.region) == id }

  lemma {:induction false} SelectedTops(tops: seq<Top>, k: string)
    ensures Select(tops, TopRegion, k) == Filter(tops, NamesRegion(k))
    ensures Select(tops, TopFamily, k) == Filter(tops, NamesFamily(k))
  {
    if tops != [] { SelectedTops(tops[1..], k); }
  }

  /** `share` is the part of `total` that `count` is; there is none of nothing. */
  ghost predicate IsShare(share: Option<real>, count: nat, total: nat) {
    if total == 0 then share == None else share.Some? && Repeat(share.value, total) == count as real
  }

  lemma ShareMeaning(count: nat, total: nat)
    ensures IsShare(Share(count, total), count, total)
  {
    if total > 0 { RepeatIsProduct(Fraction(count, total), total); }
  }

  /** A region outside the skeletons keeps its own numbers and the share of the samples whose top region it is. */
  ghost predicate IsPlainSummary(row: SummaryRow, source: RegionRow, tops: seq<Top>) {
    && row.key == source.key.region && row.regionId == RegionIdOf(source.key.region) && row.kind == source.kind
    && row.meanDegradation == source.metricMean && row.flipRate == source.flipRate && row.nValid == source.nValid
    && IsShare(row.share, |Filter(tops, NamesRegion(source.key.region))|, |tops|)
  }

  lemma PlainRowMeaning(source: RegionRow, tops: seq<Top>)
    ensures IsPlainSummary(PlainRow(tops)(source), source, tops)
  {
    SelectedTops(tops, source.key.region);
    ShareMeaning(|Select(tops, TopRegion, source.key.region)|, |tops|);
  }

  function SkeletonOf(id: string): RegionRow -> bool {
    (row: RegionRow) => row.kind == SKELETON && RegionIdOf(row.key.region) == id
  }

  lemma {:induction false} SkeletonsSelected(regionRows: seq<RegionRow>, id: string)
    ensures Select(Filter(regionRows, IsSkeleton), RowFamily, id) == Filter(regionRows, SkeletonOf(id))
  {
    if regionRows != [] { SkeletonsSelected(regionRows[1..], id); }
  }

  /** `mean` is the mean of the known numbers, each counted as often as its row has valid samples. */
  ghost predicate AveragesWeighted(mean: Option<real>, pairs: seq<Weighted>) {
    var usable := Filter(pairs, Usable);
    if usable == [] then mean == None
    else mean.Some? && mean.value * Total(usable, WeightOf) == Total(usable, WeightedValue)
  }

  lemma {:induction false} WeightsPositive(usable: seq<Weighted>)
    requires usable != [] && forall i :: 0 <= i < |usable| ==> usable[i].weight > 0
    ensures Total(usable, WeightOf) > 0.0
  {
    if |usable| > 1 { WeightsPositive(usable[1..]); }
  }

  lemma WeightedMeanMeaning(pairs: seq<Weighted>)
    ensures AveragesWeighted(WeightedMean(pairs), pairs)
  {
    var usable := Filter(pairs, Usable);
    FilterMembers(pairs, Usable);
    if usable != [] {
      forall i | 0 <= i < |usable| ensures usable[i].weight > 0 { assert usable[i] in usable; }
      WeightsPositive(usable);
    }
  }

  /** A family's row: weighted means of its skeleton regions, their valid samples, and the share of the family. */
  ghost predicate IsFamilySummary(row: SummaryRow, id: string, group: seq<RegionRow>, tops: seq<Top>) {
    && row.key == id && row.regionId == id && row.kind == SKELETON
    && AveragesWeighted(row.meanDegradation, MapSeq(group, MeanPart))
    && AveragesWeighted(row.flipRate, MapSeq(group, FlipPart))
    && row.nValid == SumValid(group)
    && IsShare(row.share, |Filter(tops, NamesFamily(id))|, |tops|)
  }

  lemma FamilyRowMeaning(regionRows: seq<RegionRow>, id: string, tops: seq<Top>)
    ensures IsFamilySummary(FamilyRow(Filter(regionRows, IsSkeleton), tops)(id), id, Filter(regionRows, SkeletonOf(id)),
                            tops)
  {
    var group := Filter(regionRows, SkeletonOf(id));
    SkeletonsSelected(regionRows, id);
    SelectedTops(tops, id);
    ShareMeaning(|Select(tops, TopFamily, id)|, |tops|);
    WeightedMeanMeaning(MapSeq(group, MeanPart));
    WeightedMeanMeaning(MapSeq(group, FlipPart));
  }

  function PlainPart(regionRows: seq<RegionRow>, tops: seq<Top>): seq<SummaryRow> {
    MapSeq(Filter(regionRows, NotSkeleton), PlainRow(tops))
  }

  function FamilyPart(regionRows: seq<RegionRow>, tops: seq<Top>): seq<SummaryRow> {
    MapSeq(Families(regionRows), FamilyRow(Filter(regionRows, IsSkeleton), tops))
  }

  /** The table is sorted by key, with as many rows as there are plain regions and skeleton families. */
  lemma SummaryOrdered(regionRows: seq<RegionRow>, tops: seq<Top>)
    ensures var rows := SummaryRows(regionRows, tops);
            && (forall i, j :: 0 <= i < j < |rows| ==> StrLe(rows[i].key, rows[j].key))
            && |rows| == |Filter(regionRows, NotSkeleton)| + |Families(regionRows)|
            && (forall row ::
                row in rows <==> row in PlainPart(regionRows, tops) || row in FamilyPart(regionRows, tops))
  {
    var both, rows := PlainPart(regionRows, tops) + FamilyPart(regionRows, tops), SummaryRows(regionRows, tops);
    StrLeIsTotalOrder();
    SortSorts(both, BySummaryKey);
    SortPermutes(both, BySummaryKey);
    SortMembers(both, BySummaryKey);
    forall i, j | 0 <= i < j < |rows| ensures StrLe(rows[i].key, rows[j].key) { assert BySummaryKey(rows[i], rows[j]); }
  }

  ghost predicate SummarisesPlain(row: SummaryRow, regionRows: seq<RegionRow>, tops: seq<Top>, source: RegionRow) {
    source in regionRows && source.kind != SKELETON && IsPlainSummary(row, source, tops)
  }

  ghost predicate SummarisesFamily(row: SummaryRow, regionRows: seq<RegionRow>, tops: seq<Top>, source: RegionRow) {
    && source in regionRows && source.kind == SKELETON
    && var id := RegionIdOf(source.key.region);
       IsFamilySummary(row, id, Filter(regionRows, SkeletonOf(id)), tops)
  }

  lemma PlainPartMeaning(regionRows: seq<RegionRow>, tops: seq<Top>)
    ensures forall row :: row in PlainPart(regionRows, tops) ==>
              exists source :: SummarisesPlain(row, regionRows, tops, source)
    ensures forall source :: source in regionRows && source.kind != SKELETON ==>
              exists row :: row in PlainPart(regionRows, tops) && SummarisesPlain(row, regionRows, tops, source)
  {
    var plain, part := Filter(regionRows, NotSkeleton), PlainPart(regionRows, tops);
    FilterMembers(regionRows, NotSkeleton);
    forall i | 0 <= i < |plain| ensures SummarisesPlain(part[i], regionRows, tops, plain[i]) {
      assert plain[i] in plain;
      PlainRowMeaning(plain[i], tops);
    }
    forall source | source in regionRows && source.kind != SKELETON
      ensures exists row :: row in part && SummarisesPlain(row, regionRows, tops, source)
    {
      var i :| 0 <= i < |plain| && plain[i] == source;
      assert part[i] in part;
    }
  }

  lemma FamilyPartMeaning(regionRows: seq<RegionRow>, tops: seq<Top>)
    ensures forall row :: row in FamilyPart(regionRows, tops) ==>
              exists source :: SummarisesFamily(row, regionRows, tops, source)
    ensures forall source :: source in regionRows && source.kind == SKELETON ==>
              exists row :: row in FamilyPart(regionRows, tops) && SummarisesFamily(row, regionRows, tops, source)
  {
    var families, part := Families(regionRows), FamilyPart(regionRows, tops);
    FamiliesListed(regionRows);
    forall i, source | 0 <= i < |families| && source in regionRows && source.kind == SKELETON
                       && RegionIdOf(source.key.region) == families[i]
      ensures SummarisesFamily(part[i], regionRows, tops, source)
    {
      FamilyRowMeaning(regionRows, families[i], tops);
    }
    forall row | row in part ensures exists source :: SummarisesFamily(row, regionRows, tops, source) {
      var i :| 0 <= i < |part| && part[i] == row;
      assert families[i] in families;
      var source :| source in regionRows && source.kind == SKELETON && RowFamily(source) == families[i];
      assert SummarisesFamily(part[i], regionRows, tops, source);
    }
    forall source | source in regionRows && source.kind == SKELETON
      ensures exists row :: row in part && SummarisesFamily(row, regionRows, tops, source)
    {
      assert RowFamily(source) in families;
      var i :| 0 <= i < |families| && families[i] == RowFamily(source);
      assert part[i] in part;
    }
  }

  /** Every row summarises a plain region or a skeleton family, and every region is summarised so. */
  lemma SummaryRowsMeaning(regionRows: seq<RegionRow>, tops: seq<Top>)
    ensures var rows := SummaryRows(regionRows, tops);
            && (forall row :: row in rows ==> exists source ::
                SummarisesPlain(row, regionRows, tops, source) || SummarisesFamily(row, regionRows, tops, source))
            && (forall source :: source in regionRows ==> exists row ::
                row in rows
                && (SummarisesPlain(row, regionRows, tops, source) || SummarisesFamily(row, regionRows, tops, source)))
  {
    SummaryOrdered(regionRows, tops);
    PlainPartMeaning(regionRows, tops);
    FamilyPartMeaning(regionRows, tops);
  }

  // -------------------------------------------------------- shares sum to one

  function UnitWeight<T>(): T -> real { (x: T) => 1.0 }

  function SharePart(row: SummaryRow): real { if row.share.Some? then row.share.value else 0.0 }

  lemma {:induction false} CountIsTotal<T>(s: seq<T>)
    ensures Total(s, UnitWeight<T>()) == |s| as real
  {
    if s != [] { CountIsTotal(s[1..]); }
  }

  lemma FractionRepeats(count: nat, n: nat)
    requires n > 0
    ensures Repeat(Fraction(count, n), n) == count as real
  {
    RepeatIsProduct(Fraction(count, n), n);
  }

  lemma {:induction false} ZeroRepeats(n: nat)
    ensures Repeat(0.0, n) == 0.0
  {
    if n > 0 { ZeroRepeats(n - 1); }
  }

  lemma OneShare(row: SummaryRow, count: nat, n: nat)
    requires n > 0 && row.share == Share(count, n)
    ensures Repeat(SharePart(row), n) == count as real
  {
    FractionRepeats(count, n);
  }

  /** Shares times the number of votes are votes. */
  lemma {:induction false} SharesTotal<T>(s: seq<T>, rowOf: T -> SummaryRow, keyOf: T -> string, tops: seq<Top>,
                                          tag: Top -> string)
    requires tops != [] && forall x :: rowOf(x).share == Share(|Select(tops, tag, keyOf(x))|, |tops|)
    ensures Repeat(Total(MapSeq(s, rowOf), SharePart), |tops|)
            == Total(MapSeq(s, keyOf), GroupTotal(tops, tag, UnitWeight<Top>()))
  {
    if s == [] {
      ZeroRepeats(|tops|);
    } else {
      SharesTotal(s[1..], rowOf, keyOf, tops, tag);
      CountIsTotal(Select(tops, tag, keyOf(s[0])));
      OneShare(rowOf(s[0]), |Select(tops, tag, keyOf(s[0]))|, |tops|);
      RepeatAdds(SharePart(rowOf(s[0])), Total(MapSeq(s[1..], rowOf), SharePart), |tops|);
      assert MapSeq(s, rowOf)[1..] == MapSeq(s[1..], rowOf) && MapSeq(s, keyOf)[1..] == MapSeq(s[1..], keyOf);
    }
  }

  function Both<T>(p: T -> bool, q: T -> bool): T -> bool { x => p(x) && q(x) }

  lemma {:induction false} CountEitherOrBoth<T>(s: seq<T>, p: T -> bool, q: T -> bool)
    requires forall i {:trigger s[i]} :: 0 <= i < |s| ==> p(s[i]) || q(s[i])
    ensures |Filter(s, p)| + |Filter(s, q)| == |s| + |Filter(s, Both(p, q))|
  {
    if s != [] {
      assert p(s[0]) || q(s[0]);
      forall i | 0 <= i < |s| - 1 ensures p(s[1..][i]) || q(s[1..][i]) { assert s[1..][i] == s[i + 1]; }
      CountEitherOrBoth(s[1..], p, q);
    }
  }

  /** A top region whose own row is plain. */
  function CountedByKey(regionRows: seq<RegionRow>): Top -> bool {
    InGroups(TopRegion, MapSeq(Filter(regionRows, NotSkeleton), RowRegion))
  }

  /** A top region whose family has a skeleton row. */
  function CountedByFamily(regionRows: seq<RegionRow>): Top -> bool {
    InGroups(TopFamily, Families(regionRows))
  }

  function CountedTwice(regionRows: seq<RegionRow>, tops: seq<Top>): seq<Top> {
    Filter(tops, Both(CountedByKey(regionRows), CountedByFamily(regionRows)))
  }

  ghost predicate HasRow(regionRows: seq<RegionRow>, region: string) {
    exists row :: row in regionRows && row.key.region == region
  }

  /** Region keys are unique, and every top region has a row. */
  ghost predicate Covers(regionRows: seq<RegionRow>, tops: seq<Top>) {
    Distinct(MapSeq(regionRows, RowRegion)) && forall top :: top in tops ==> HasRow(regionRows, top.region)
  }

  lemma DistinctCons<T>(x: T, t: seq<T>)
    ensures Distinct([x] + t) <==> x !in t && Distinct(t)
  {
    var s := [x] + t;
    assert forall j :: 0 <= j < |t| ==> s[j + 1] == t[j];
    if x in t {
      var j :| 0 <= j < |t| && t[j] == x;
      assert s[0] == s[j + 1];
    }
    if Distinct(s) {
      forall i, j | 0 <= i < j < |t| ensures t[i] != t[j] { assert s[i + 1] != s[j + 1]; }
    }
  }

  lemma {:induction false} MapOfFilter<T(!new), U>(s: seq<T>, p: T -> bool, f: T -> U)
    ensures forall y :: y in MapSeq(Filter(s, p), f) ==> y in MapSeq(s, f)
  {
    if s != [] {
      MapOfFilter(s[1..], p, f);
      assert MapSeq(s, f) == [f(s[0])] + MapSeq(s[1..], f);
      if p(s[0]) { assert MapSeq(Filter(s, p), f) == [f(s[0])] + MapSeq(Filter(s[1..], p), f); }
    }
  }

  lemma {:induction false} MapDistinct<T(!new), U>(s: seq<T>, p: T -> bool, f: T -> U)
    requires Distinct(MapSeq(s, f))
    ensures Distinct(MapSeq(Filter(s, p), f))
  {
    if s != [] {
      assert MapSeq(s, f) == [f(s[0])] + MapSeq(s[1..], f);
      DistinctCons(f(s[0]), MapSeq(s[1..], f));
      MapDistinct(s[1..], p, f);
      MapOfFilter(s[1..], p, f);
      DistinctCons(f(s[0]), MapSeq(Filter(s[1..], p), f));
      if p(s[0]) { assert MapSeq(Filter(s, p), f) == [f(s[0])] + MapSeq(Filter(s[1..], p), f); }
    }
  }

  lemma FamiliesListed(regionRows: seq<RegionRow>)
    ensures Distinct(Families(regionRows))
    ensures forall row :: row in regionRows && row.kind == SKELETON ==> RowFamily(row) in Families(regionRows)
    ensures forall id :: id in Families(regionRows) ==> exists row ::
            row in regionRows && row.kind == SKELETON && RowFamily(row) == id
  {
    var skeletons := Filter(regionRows, IsSkeleton);
    KeysAreGroups(skeletons, RowFamily);
    SortDistinct(Keys(skeletons, RowFamily), StrLe);
    SortMembers(Keys(skeletons, RowFamily), StrLe);
    FilterMembers(regionRows, IsSkeleton);
  }

  lemma CountedMeaning(regionRows: seq<RegionRow>, top: Top)
    ensures CountedByKey(regionRows)(top) <==> top.region in MapSeq(Filter(regionRows, NotSkeleton), RowRegion)
    ensures CountedByFamily(regionRows)(top) <==> RegionIdOf(top.region) in Families(regionRows)
  {
    InGroupsMeaning(TopRegion, MapSeq(Filter(regionRows, NotSkeleton), RowRegion), top);
    InGroupsMeaning(TopFamily, Families(regionRows), top);
  }

  lemma EveryTopCounted(regionRows: seq<RegionRow>, top: Top)
    requires HasRow(regionRows, top.region)
    ensures CountedByKey(regionRows)(top) || CountedByFamily(regionRows)(top)
  {
    var plain := Filter(regionRows, NotSkeleton);
    var row :| row in regionRows && row.key.region == top.region;
    FamiliesListed(regionRows);
    FilterMembers(regionRows, NotSkeleton);
    CountedMeaning(regionRows, top);
    if row.kind == SKELETON {
      assert RowFamily(row) == RegionIdOf(top.region);
    } else {
      var j :| 0 <= j < |plain| && plain[j] == row;
      assert MapSeq(plain, RowRegion)[j] == top.region;
    }
  }

  /** The shares of listed rows: the votes for one of them, over all votes. */
  lemma ListedShares<T>(s: seq<T>, rowOf: T -> SummaryRow, keyOf: T -> string, tops: seq<Top>, tag: Top -> string)
    requires tops != [] && forall x :: rowOf(x).share == Share(|Select(tops, tag, keyOf(x))|, |tops|)
    requires Distinct(MapSeq(s, keyOf))
    ensures Repeat(Total(MapSeq(s, rowOf), SharePart), |tops|) == Votes(tops, InGroups(tag, MapSeq(s, keyOf))) as real
  {
    SharesTotal(s, rowOf, keyOf, tops, tag);
    VotesOfListed(tops, tag, MapSeq(s, keyOf));
  }

  /** The sum of `top_region_share` over all rows. */
  function ShareTotal(regionRows: seq<RegionRow>, tops: seq<Top>): real {
    Total(SummaryRows(regionRows, tops), SharePart)
  }

  function Votes(tops: seq<Top>, p: Top -> bool): nat { |Filter(tops, p)| }

  function PlainTotal(regionRows: seq<RegionRow>, tops: seq<Top>): real {
    Total(MapSeq(Filter(regionRows, NotSkeleton), PlainRow(tops)), SharePart)
  }

  function FamilyTotal(regionRows: seq<RegionRow>, tops: seq<Top>): real {
    Total(MapSeq(Families(regionRows), FamilyRow(Filter(regionRows, IsSkeleton), tops)), SharePart)
  }

  lemma HalvesTotal(regionRows: seq<RegionRow>, tops: seq<Top>)
    ensures ShareTotal(regionRows, tops)
            == PlainTotal(regionRows, tops) + FamilyTotal(regionRows, tops)
  {
    var first := MapSeq(Filter(regionRows, NotSkeleton), PlainRow(tops));
    var second := MapSeq(Families(regionRows), FamilyRow(Filter(regionRows, IsSkeleton), tops));
    SortPermutes(first + second, BySummaryKey);
    TotalPermutation(SummaryRows(regionRows, tops), first + second, SharePart);
    TotalAppend(first, second, SharePart);
  }

  lemma PlainShares(regionRows: seq<RegionRow>, tops: seq<Top>)
    requires tops != [] && Distinct(MapSeq(regionRows, RowRegion))
    ensures Repeat(PlainTotal(regionRows, tops), |tops|) == Votes(tops, CountedByKey(regionRows)) as real
  {
    MapDistinct(regionRows, NotSkeleton, RowRegion);
    ListedShares(Filter(regionRows, NotSkeleton), PlainRow(tops), RowRegion, tops, TopRegion);
  }

  lemma FamilyShares(regionRows: seq<RegionRow>, tops: seq<Top>)
    requires tops != []
    ensures Repeat(FamilyTotal(regionRows, tops), |tops|) == Votes(tops, CountedByFamily(regionRows)) as real
  {
    var families := Families(regionRows);
    FamiliesListed(regionRows);
    assert MapSeq(families, Same<string>()) == families;
    ListedShares(families, FamilyRow(Filter(regionRows, IsSkeleton), tops), Same<string>(), tops, TopFamily);
  }

  lemma SummaryShareTotal(regionRows: seq<RegionRow>, tops: seq<Top>)
    requires tops != [] && Distinct(MapSeq(regionRows, RowRegion))
    ensures Repeat(ShareTotal(regionRows, tops), |tops|)
            == (Votes(tops, CountedByKey(regionRows)) + Votes(tops, CountedByFamily(regionRows))) as real
  {
    HalvesTotal(regionRows, tops);
    PlainShares(regionRows, tops);
    FamilyShares(regionRows, tops);
    AddTotals(ShareTotal(regionRows, tops), PlainTotal(regionRows, tops), FamilyTotal(regionRows, tops),
              Votes(tops, CountedByKey(regionRows)), Votes(tops, CountedByFamily(regionRows)), |tops|);
  }

  lemma AddTotals(total: real, x: real, y: real, a: nat, b: nat, n: nat)
    requires total == x + y && Repeat(x, n) == a as real && Repeat(y, n) == b as real
    ensures Repeat(total, n) == (a + b) as real
  {
    RepeatAdds(x, y, n);
  }

  function Same<T>(): T -> T { (x: T) => x }

  /** Votes counted on either axis. */
  lemma VotesCounted(regionRows: seq<RegionRow>, tops: seq<Top>)
    requires Covers(regionRows, tops)
    ensures Votes(tops, CountedByKey(regionRows)) + Votes(tops, CountedByFamily(regionRows)) == |tops|
            + |CountedTwice(regionRows, tops)|
  {
    var p, q := CountedByKey(regionRows), CountedByFamily(regionRows);
    forall i | 0 <= i < |tops| ensures p(tops[i]) || q(tops[i]) {
      assert tops[i] in tops;
      EveryTopCounted(regionRows, tops[i]);
    }
    CountEitherOrBoth(tops, p, q);
  }

  lemma VotesOfListed(tops: seq<Top>, tag: Top -> string, ks: seq<string>)
    requires Distinct(ks)
    ensures Total(ks, GroupTotal(tops, tag, UnitWeight<Top>())) == |Filter(tops, InGroups(tag, ks))| as real
  {
    TotalOfListedGroups(tops, tag, ks, UnitWeight<Top>());
    CountIsTotal(Filter(tops, InGroups(tag, ks)));
  }

  /**
    The shares, times the number of votes: one vote per sample, and one more for each sample counted
    under both axes.
   */
  lemma SharesSum(regionRows: seq<RegionRow>, tops: seq<Top>)
    requires tops != [] && Covers(regionRows, tops)
    ensures Repeat(ShareTotal(regionRows, tops), |tops|) == (|tops| + |CountedTwice(regionRows, tops)|) as real
  {
    SummaryShareTotal(regionRows, tops);
    VotesCounted(regionRows, tops);
  }

  lemma OneExactly(total: real, n: nat, extra: nat)
    requires n > 0 && Repeat(total, n) == (n + extra) as real
    ensures total == 1.0 <==> extra == 0
  {
    RepeatIsProduct(total, n);
    if total != 1.0 { RankCorrelation.PositiveProduct(if total > 1.0 then total - 1.0 else 1.0 - total, n as real); }
  }

  /** The shares sum to one exactly when no sample is counted twice. */
  lemma SharesSumToOneIff(regionRows: seq<RegionRow>, tops: seq<Top>)
    requires tops != [] && Covers(regionRows, tops)
    ensures ShareTotal(regionRows, tops) == 1.0 <==> CountedTwice(regionRows, tops) == []
  {
    SharesSum(regionRows, tops);
    OneExactly(ShareTotal(regionRows, tops), |tops|, |CountedTwice(regionRows, tops)|);
  }

  /**
    A family `x` with a plain and a skeleton region: its one scored sample is counted on both axes,
    and the shares add up to two.
   */
  lemma MixedFamilyCountsTwice()
    ensures var plain := RegionRow(RegionMetric("x::0", "m"), "grid", 1, 1, None, Some(1.0));
            var part := RegionRow(RegionMetric("x::1", "m"), SKELETON, 1, 1, None, Some(0.5));
            Covers([plain, part], [Top("s", "x::0")]) && ShareTotal([plain, part], [Top("s", "x::0")]) == 2.0
  {
    var plain := RegionRow(RegionMetric("x::0", "m"), "grid", 1, 1, None, Some(1.0));
    var part := RegionRow(RegionMetric("x::1", "m"), SKELETON, 1, 1, None, Some(0.5));
    var top := Top("s", "x::0");
    MixedFamilyCovers(plain, part, top);
    MixedFamilyTwice(plain, part, top);
    SharesSum([plain, part], [top]);
    assert Repeat(ShareTotal([plain, part], [top]), 1) == ShareTotal([plain, part], [top])
      + Repeat(ShareTotal([plain, part], [top]), 0);
  }

  lemma MixedFamilyCovers(plain: RegionRow, part: RegionRow, top: Top)
    requires plain.key.region == top.region && plain.key.region != part.key.region
    ensures Covers([plain, part], [top])
  {
    assert MapSeq([plain, part], RowRegion)[0] == plain.key.region
      && MapSeq([plain, part], RowRegion)[1] == part.key.region;
    assert plain in [plain, part];
    assert HasRow([plain, part], top.region);
  }

  /** A plain top region whose family also has a skeleton row is counted on both axes. */
  lemma MixedFamilyTwice(plain: RegionRow, part: RegionRow, top: Top)
    requires plain.kind != SKELETON && part.kind == SKELETON && plain.key.region == top.region
    requires RegionIdOf(plain.key.region) == RegionIdOf(part.key.region)
    ensures CountedTwice([plain, part], [top]) == [top]
  {
    var rows := [plain, part];
    assert rows == [plain] + ([part] + []);
    FilterCons(plain, [part] + [], NotSkeleton);
    FilterCons(part, [], NotSkeleton);
    assert Filter(rows, NotSkeleton) == [plain];
    assert MapSeq([plain], RowRegion)[0] == top.region;
    FamiliesListed(rows);
    assert part in rows && RowFamily(part) in Families(rows);
    CountedMeaning(rows, top);
    FilterCons(top, [], Both(CountedByKey(rows), CountedByFamily(rows)));
    assert [top] + [] == [top];
  }

  /** No family has both skeleton and other rows. */
  ghost predicate OneKindPerFamily(regionRows: seq<RegionRow>) {
    forall r, s :: r in regionRows && s in regionRows && RowFamily(r) == RowFamily(s) ==>
      (r.kind == SKELETON <==> s.kind == SKELETON)
  }

  lemma NobodyCountedTwice(regionRows: seq<RegionRow>, tops: seq<Top>)
    requires OneKindPerFamily(regionRows)
    ensures CountedTwice(regionRows, tops) == []
  {
    FilterMembers(tops, Both(CountedByKey(regionRows), CountedByFamily(regionRows)));
    if CountedTwice(regionRows, tops) != [] {
      var top := CountedTwice(regionRows, tops)[0];
      assert top in CountedTwice(regionRows, tops);
      NotCountedTwice(regionRows, top);
    }
  }

  lemma NotCountedTwice(regionRows: seq<RegionRow>, top: Top)
    requires OneKindPerFamily(regionRows) && CountedByKey(regionRows)(top)
    ensures !CountedByFamily(regionRows)(top)
  {
    var plain := Filter(regionRows, NotSkeleton);
    FamiliesListed(regionRows);
    FilterMembers(regionRows, NotSkeleton);
    CountedMeaning(regionRows, top);
    var j :| 0 <= j < |plain| && MapSeq(plain, RowRegion)[j] == top.region;
    assert plain[j] in plain;
    assert RowFamily(plain[j]) == RegionIdOf(top.region);
  }

  // --------------------------------------------------- the tables of one metric

  function OfMetric(metric: string): SpatialRow -> bool { (row: SpatialRow) => row.key.metric == metric }

  function RowOfMetric(metric: string): RegionRow -> bool { (row: RegionRow) => row.key.metric == metric }

  /** The region rows `assemble` hands over. */
  function PrimaryRegions(spatial: seq<SpatialRow>, catalog: Catalog, metric: string): seq<RegionRow> {
    Filter(RegionMetrics(spatial, catalog), RowOfMetric(metric))
  }

  function RowKey(row: RegionRow): RegionMetric { row.key }

  lemma PrimaryRows(spatial: seq<SpatialRow>, catalog: Catalog, metric: string)
    ensures var rows := PrimaryRegions(spatial, catalog, metric);
            && (forall row ::
                row in rows
                <==> row == RegionRowOf(spatial, catalog)(row.key) && row.key.metric == metric
                     && row.key in Keys(spatial, RegionOf))
            && Distinct(MapSeq(rows, RowKey))
  {
    var all, keys := RegionMetrics(spatial, catalog), Keys(spatial, RegionOf);
    FilterMembers(all, RowOfMetric(metric));
    KeysAreGroups(spatial, RegionOf);
    assert MapSeq(all, RowKey) == keys;
    MapDistinct(all, RowOfMetric(metric), RowKey);
    forall row ensures row in all <==> row == RegionRowOf(spatial, catalog)(row.key) && row.key in keys {
      if row in all {
        var i :| 0 <= i < |all| && all[i] == row;
        assert keys[i] in keys;
      }
      if row.key in keys && row == RegionRowOf(spatial, catalog)(row.key) {
        var i :| 0 <= i < |keys| && keys[i] == row.key;
        assert all[i] in all;
      }
    }
  }

  lemma PrimaryRegionsDistinct(spatial: seq<SpatialRow>, catalog: Catalog, metric: string)
    ensures Distinct(MapSeq(PrimaryRegions(spatial, catalog, metric), RowRegion))
  {
    var rows := PrimaryRegions(spatial, catalog, metric);
    PrimaryRows(spatial, catalog, metric);
    forall i, j | 0 <= i < j < |rows| ensures rows[i].key.region != rows[j].key.region {
      assert rows[i] in rows && rows[j] in rows;
      assert MapSeq(rows, RowKey)[i] != MapSeq(rows, RowKey)[j];
    }
  }

  lemma RegionHasRow(spatial: seq<SpatialRow>, catalog: Catalog, best: SpatialRow)
    requires best in spatial
    ensures HasRow(PrimaryRegions(spatial, catalog, best.key.metric), best.key.region)
  {
    PrimaryRows(spatial, catalog, best.key.metric);
    KeysAreGroups(spatial, RegionOf);
    var row := RegionRowOf(spatial, catalog)(RegionOf(best));
    assert row.key == RegionOf(best);
  }

  lemma PrimaryRegionsCover(spatial: seq<SpatialRow>, catalog: Catalog, metric: string)
    ensures Covers(PrimaryRegions(spatial, catalog, metric), TopRegions(Filter(spatial, OfMetric(metric))))
  {
    var rows, tops := PrimaryRegions(spatial, catalog, metric), TopRegions(Filter(spatial, OfMetric(metric)));
    PrimaryRegionsDistinct(spatial, catalog, metric);
    FilterMembers(spatial, OfMetric(metric));
    TopRegionsMeaning(Filter(spatial, OfMetric(metric)));
    forall top | top in tops ensures HasRow(rows, top.region) {
      assert IsTop(top, Filter(spatial, OfMetric(metric)));
      var best :| KnownIn(best, Filter(spatial, OfMetric(metric)), top.sample) && best.key.region == top.region;
      assert best in spatial && OfMetric(metric)(best);
      RegionHasRow(spatial, catalog, best);
    }
  }

  /** Each family of the data set is skeleton throughout, or not at all. */
  ghost predicate FamiliesHaveOneKind(catalog: Catalog, spatial: seq<SpatialRow>) {
    forall x, y :: x in spatial && y in spatial && RegionIdOf(x.key.region) == RegionIdOf(y.key.region) ==>
      (catalog.kindOf(x.key.region) == SKELETON <==> catalog.kindOf(y.key.region) == SKELETON)
  }

  lemma PrimaryKinds(spatial: seq<SpatialRow>, catalog: Catalog, metric: string)
    requires FamiliesHaveOneKind(catalog, spatial)
    ensures OneKindPerFamily(PrimaryRegions(spatial, catalog, metric))
  {
    var rows := PrimaryRegions(spatial, catalog, metric);
    PrimaryRows(spatial, catalog, metric);
    KeysAreGroups(spatial, RegionOf);
    forall row | row in rows ensures row.kind == catalog.kindOf(row.key.region) && InSpatial(spatial, row.key.region) {
      assert row == RegionRowOf(spatial, catalog)(row.key);
      var x :| x in spatial && RegionOf(x) == row.key;
    }
  }

  ghost predicate InSpatial(spatial: seq<SpatialRow>, region: string) {
    exists x :: x in spatial && x.key.region == region
  }

  /** A configured region family. */
  datatype RegionSpec = RegionSpec(id: string, kind: string)

  /** The region is an instance of the family, and of its kind. */
  predicate IsInstance(spec: RegionSpec, catalog: Catalog, region: string) {
    |region| >= |spec.id| + 2 && region == RegionKey(spec.id, region[|spec.id| + 2..])
      && catalog.kindOf(region) == spec.kind
  }

  /** The data set of a run: configured ids are valid and unique, and every region belongs to a configured family. */
  ghost predicate ConfiguredRun(specs: seq<RegionSpec>, catalog: Catalog, spatial: seq<SpatialRow>) {
    && (forall i, j :: 0 <= i < j < |specs| ==> specs[i].id != specs[j].id)
    && (forall spec :: spec in specs ==> ConfiguredId(spec.id))
    && (forall x :: x in spatial ==> exists spec :: spec in specs && IsInstance(spec, catalog, x.key.region))
  }

  /** A configured run never mixes kinds within a family. */
  lemma ConfiguredRunHasOneKind(specs: seq<RegionSpec>, catalog: Catalog, spatial: seq<SpatialRow>)
    requires ConfiguredRun(specs, catalog, spatial)
    ensures FamiliesHaveOneKind(catalog, spatial)
  {
    forall x, y | x in spatial && y in spatial && RegionIdOf(x.key.region) == RegionIdOf(y.key.region)
      ensures catalog.kindOf(x.key.region) == catalog.kindOf(y.key.region)
    {
      var a :| a in specs && IsInstance(a, catalog, x.key.region);
      var b :| b in specs && IsInstance(b, catalog, y.key.region);
      ConfiguredIdsRecover(a.id, x.key.region[|a.id| + 2..]);
      ConfiguredIdsRecover(b.id, y.key.region[|b.id| + 2..]);
      var i :| 0 <= i < |specs| && specs[i] == a;
      var j :| 0 <= j < |specs| && specs[j] == b;
      assert i == j;
    }
  }

  /** End to end: with one kind per family, the shares of a scored data set sum to exactly one. */
  lemma SharesSumToOne(spatial: seq<SpatialRow>, catalog: Catalog, metric: string)
    requires FamiliesHaveOneKind(catalog, spatial)
    requires KnownValues(Filter(spatial, OfMetric(metric))) != []
    ensures var tops := TopRegions(Filter(spatial, OfMetric(metric)));
            tops != [] && ShareTotal(PrimaryRegions(spatial, catalog, metric), tops) == 1.0
  {
    var tops, rows := TopRegions(Filter(spatial, OfMetric(metric))), PrimaryRegions(spatial, catalog, metric);
    ScoredHasTop(Filter(spatial, OfMetric(metric)));
    PrimaryRegionsCover(spatial, catalog, metric);
    PrimaryKinds(spatial, catalog, metric);
    NobodyCountedTwice(rows, tops);
    SharesSumToOneIff(rows, tops);
  }

  lemma ScoredHasTop(spatial: seq<SpatialRow>)
    requires KnownValues(spatial) != []
    ensures TopRegions(spatial) != []
  {
    var known := Filter(spatial, IsKnown)[0];
    FilterMembers(spatial, IsKnown);
    TopRegionsMeaning(spatial);
    assert known in Filter(spatial, IsKnown);
  }

  // -------------------------------------- families undo the per-region averages

  /** The known values behind a skeleton family: all its regions, all samples. */
  function InFamily(catalog: Catalog, metric: string, id: string): SpatialRow -> bool {
    (row: SpatialRow) => row.key.metric == metric && catalog.kindOf(row.key.region) == SKELETON
      && RegionIdOf(row.key.region) == id
  }

  function KnownCount(row: SpatialRow): real { if row.degradation.Some? then 1.0 else 0.0 }

  lemma {:induction false} KnownTotals(rows: seq<SpatialRow>)
    ensures Sum(KnownValues(rows)) == Total(rows, KnownValue)
    ensures |KnownValues(rows)| as real == Total(rows, KnownCount)
  {
    if rows != [] { KnownTotals(rows[1..]); }
  }

  /** A region row's mean times its count is the sum of its values. */
  lemma RegionContribution(spatial: seq<SpatialRow>, catalog: Catalog, key: RegionMetric)
    ensures var row := RegionRowOf(spatial, catalog)(key);
            && (row.metricMean.Some? <==> row.nValid > 0)
            && WeightedValue(MeanPart(row)) == GroupTotal(spatial, RegionOf, KnownValue)(key)
            && row.nValid as real == GroupTotal(spatial, RegionOf, KnownCount)(key)
  {
    var rows := Select(spatial, RegionOf, key);
    var values := KnownValues(rows);
    KnownTotals(rows);
    if values != [] {
      MeanRepeated(values);
      RepeatIsProduct(Mean(values), |values|);
    }
  }

  lemma {:induction false} GroupContribution(spatial: seq<SpatialRow>, catalog: Catalog, group: seq<RegionRow>)
    requires forall i :: 0 <= i < |group| ==> group[i] == RegionRowOf(spatial, catalog)(group[i].key)
    ensures var usable := Filter(MapSeq(group, MeanPart), Usable);
            var keys := MapSeq(group, RowKey);
            && Total(usable, WeightedValue) == Total(keys, GroupTotal(spatial, RegionOf, KnownValue))
            && Total(usable, WeightOf) == Total(keys, GroupTotal(spatial, RegionOf, KnownCount))
            && SumValid(group) as real == Total(keys, GroupTotal(spatial, RegionOf, KnownCount))
  {
    if group != [] {
      GroupContribution(spatial, catalog, group[1..]);
      RegionContribution(spatial, catalog, group[0].key);
      assert MapSeq(group, MeanPart)[1..] == MapSeq(group[1..], MeanPart);
      assert MapSeq(group, RowKey)[1..] == MapSeq(group[1..], RowKey);
    }
  }

  function FamilyGroup(spatial: seq<SpatialRow>, catalog: Catalog, metric: string, id: string): seq<RegionRow> {
    Select(Filter(PrimaryRegions(spatial, catalog, metric), IsSkeleton), RowFamily, id)
  }

  /** The group holds the row of every skeleton region of the family. */
  lemma FamilyGroupMembers(spatial: seq<SpatialRow>, catalog: Catalog, metric: string, id: string)
    ensures var group := FamilyGroup(spatial, catalog, metric, id);
            && Distinct(MapSeq(group, RowKey))
            && (forall row ::
                row in group
                <==> row in PrimaryRegions(spatial, catalog, metric) && row.kind == SKELETON && RowFamily(row) == id)
  {
    var rows := PrimaryRegions(spatial, catalog, metric);
    var skeletons := Filter(rows, IsSkeleton);
    PrimaryRows(spatial, catalog, metric);
    FilterMembers(rows, IsSkeleton);
    SelectMembers(skeletons, RowFamily, id);
    MapDistinct(rows, IsSkeleton, RowKey);
    SelectIsFilter(skeletons, id);
    MapDistinct(skeletons, HasFamily(id), RowKey);
  }

  lemma FamilyGroupRows(spatial: seq<SpatialRow>, catalog: Catalog, metric: string, id: string)
    ensures var group := FamilyGroup(spatial, catalog, metric, id);
            forall i :: 0 <= i < |group| ==> group[i] == RegionRowOf(spatial, catalog)(group[i].key)
  {
    var group := FamilyGroup(spatial, catalog, metric, id);
    FamilyGroupMembers(spatial, catalog, metric, id);
    PrimaryRows(spatial, catalog, metric);
    forall i | 0 <= i < |group|
      ensures group[i] == RegionRowOf(spatial, catalog)(group[i].key)
    {
      assert group[i] in group;
    }
  }

  lemma InGroupIffInFamily(spatial: seq<SpatialRow>, catalog: Catalog, metric: string, id: string, x: SpatialRow)
    requires x in spatial
    ensures RegionOf(x) in MapSeq(FamilyGroup(spatial, catalog, metric, id), RowKey)
            <==> InFamily(catalog, metric, id)(x)
  {
    var group := FamilyGroup(spatial, catalog, metric, id);
    var row := RegionRowOf(spatial, catalog)(RegionOf(x));
    KeyInMap(group, RegionOf(x));
    FamilyGroupMembers(spatial, catalog, metric, id);
    PrimaryRows(spatial, catalog, metric);
    KeysAreGroups(spatial, RegionOf);
    assert row.key == RegionOf(x) && row.kind == catalog.kindOf(x.key.region);
    assert row in group <==> InFamily(catalog, metric, id)(x);
  }

  lemma KeyInMap(group: seq<RegionRow>, key: RegionMetric)
    ensures key in MapSeq(group, RowKey) <==> exists row :: row in group && row.key == key
  {
    if key in MapSeq(group, RowKey) {
      var i :| 0 <= i < |group| && MapSeq(group, RowKey)[i] == key;
      assert group[i] in group;
    }
    if row :| row in group && row.key == key {
      var i :| 0 <= i < |group| && group[i] == row;
      assert MapSeq(group, RowKey)[i] == key;
    }
  }

  lemma FamilyGroupKeys(spatial: seq<SpatialRow>, catalog: Catalog, metric: string, id: string)
    ensures var keys := MapSeq(FamilyGroup(spatial, catalog, metric, id), RowKey);
            Filter(spatial, InGroups(RegionOf, keys)) == Filter(spatial, InFamily(catalog, metric, id))
  {
    var keys := MapSeq(FamilyGroup(spatial, catalog, metric, id), RowKey);
    forall x | x in spatial ensures InGroups(RegionOf, keys)(x) == InFamily(catalog, metric, id)(x) {
      InGroupIffInFamily(spatial, catalog, metric, id, x);
      InGroupsMeaning(RegionOf, keys, x);
    }
    FilterSame(spatial, InGroups(RegionOf, keys), InFamily(catalog, metric, id));
  }

  function HasFamily(id: string): RegionRow -> bool { (row: RegionRow) => RowFamily(row) == id }

  lemma {:induction false} SelectIsFilter(rows: seq<RegionRow>, id: string)
    ensures Select(rows, RowFamily, id) == Filter(rows, HasFamily(id))
  {
    if rows != [] { SelectIsFilter(rows[1..], id); }
  }

  /**
    A skeleton family's weighted mean is the flat mean over every known value of its regions, and its
    `n_valid` counts them: weighting by `n_valid` exactly undoes the averaging per region.
   */
  lemma FamilyMeanIsFlatMean(spatial: seq<SpatialRow>, catalog: Catalog, metric: string, id: string)
    ensures var group := FamilyGroup(spatial, catalog, metric, id);
            var values := KnownValues(Filter(spatial, InFamily(catalog, metric, id)));
            && WeightedMean(MapSeq(group, MeanPart)) == MeanOrNone(values)
            && SumValid(group) == |values|
  {
    var group := FamilyGroup(spatial, catalog, metric, id);
    FamilyGroupMembers(spatial, catalog, metric, id);
    FamilyGroupRows(spatial, catalog, metric, id);
    FamilyGroupKeys(spatial, catalog, metric, id);
    GroupContribution(spatial, catalog, group);
    TotalOfListedGroups(spatial, RegionOf, MapSeq(group, RowKey), KnownValue);
    TotalOfListedGroups(spatial, RegionOf, MapSeq(group, RowKey), KnownCount);
    KnownTotals(Filter(spatial, InFamily(catalog, metric, id)));
  }

  lemma {:induction false} FlipPairs(group: seq<RegionRow>, binary: bool)
    requires forall i :: 0 <= i < |group| ==> group[i].flipRate == if binary then group[i].metricMean else None
    ensures if binary then MapSeq(group, FlipPart) == MapSeq(group, MeanPart)
            else Filter(MapSeq(group, FlipPart), Usable) == []
  {
    if group != [] {
      FlipPairs(group[1..], binary);
      assert MapSeq(group, FlipPart)[1..] == MapSeq(group[1..], FlipPart);
    }
  }

  /** The same holds for a family's flip rate, which only a binary metric has. */
  lemma FamilyFlipRateIsFlatMean(spatial: seq<SpatialRow>, catalog: Catalog, metric: string, id: string)
    ensures var group := FamilyGroup(spatial, catalog, metric, id);
            var values := KnownValues(Filter(spatial, InFamily(catalog, metric, id)));
            WeightedMean(MapSeq(group, FlipPart)) == if metric in catalog.binary then MeanOrNone(values) else None
  {
    var group := FamilyGroup(spatial, catalog, metric, id);
    FamilyGroupMembers(spatial, catalog, metric, id);
    PrimaryRows(spatial, catalog, metric);
    forall i | 0 <= i < |group|
      ensures group[i].flipRate == if metric in catalog.binary then group[i].metricMean else None
    {
      assert group[i] in group;
    }
    FlipPairs(group, metric in catalog.binary);
    FamilyMeanIsFlatMean(spatial, catalog, metric, id);
  }

  // ------------------------------------------------- agreement with the galleries

  /** The first row, in table order, with the largest degradation. */
  function FirstLargest(rows: seq<SpatialRow>): SpatialRow
    requires rows != []
  {
    if |rows| == 1 || KnownValue(rows[0]) >= KnownValue(FirstLargest(rows[1..])) then rows[0]
    else FirstLargest(rows[1..])
  }

  lemma {:induction false} FirstLargestMeaning(rows: seq<SpatialRow>) returns (k: nat)
    requires rows != []
    ensures k < |rows| && FirstLargest(rows) == rows[k]
    ensures forall j :: 0 <= j < |rows| ==> KnownValue(rows[j]) <= KnownValue(rows[k])
    ensures forall j :: 0 <= j < k ==> KnownValue(rows[j]) < KnownValue(rows[k])
  {
    k := 0;
    if |rows| > 1 {
      var rest := FirstLargestMeaning(rows[1..]);
      forall j | 1 <= j < |rows|
        ensures KnownValue(rows[j]) <= KnownValue(rows[rest + 1])
      {
        assert rows[j] == rows[1..][j - 1];
      }
      if KnownValue(rows[0]) < KnownValue(FirstLargest(rows[1..])) {
        k := rest + 1;
        forall j | 0 <= j < k
          ensures KnownValue(rows[j]) < KnownValue(rows[k])
        {
          if j > 0 { assert rows[j] == rows[1..][j - 1]; }
        }
      }
    }
  }

  /** The stable sort puts that row first. */
  lemma {:induction false} SortLeadsWithFirstLargest(rows: seq<SpatialRow>)
    requires rows != []
    ensures var sorted := SortBy(rows, Rankings.HigherDegradationFirst); sorted != [] && sorted[0] == FirstLargest(rows)
  {
    if |rows| > 1 { SortLeadsWithFirstLargest(rows[1..]); }
  }

  /** What a gallery card for the sample shows. */
  function CardRegions(spatial: seq<SpatialRow>, sample: string, k: nat): seq<Rankings.TopRegion> {
    Rankings.TopRegionsForSample(Select(spatial, Rankings.SpatialSample, sample), k)
  }

  lemma CardLeads(spatial: seq<SpatialRow>, sample: string, k: nat)
    requires k > 0 && KnownRows(spatial, sample) != []
    ensures var first := FirstLargest(KnownRows(spatial, sample));
            CardRegions(spatial, sample, k) != []
              && CardRegions(spatial, sample, k)[0] == Rankings.TopRegion(first.key.region, first.degradation)
  {
    SortLeadsWithFirstLargest(KnownRows(spatial, sample));
  }

  /** The smallest key among the rows tied for the largest degradation. */
  ghost predicate SmallestKeyOfTies(rows: seq<SpatialRow>, first: SpatialRow) {
    forall row :: row in rows && KnownValue(row) == KnownValue(first) ==> StrLe(first.key.region, row.key.region)
  }

  lemma FirstAgainstLeader(rows: seq<SpatialRow>)
    requires rows != []
    ensures KnownValue(FirstLargest(rows)) == KnownValue(Leader(rows))
    ensures FirstLargest(rows).key.region == Leader(rows).key.region <==> SmallestKeyOfTies(rows, FirstLargest(rows))
  {
    var k := FirstLargestMeaning(rows);
    var first, leader := FirstLargest(rows), Leader(rows);
    LeaderRanksFirst(rows);
    assert first in rows && RanksBefore(leader, first);
    var i :| 0 <= i < |rows| && rows[i] == leader;
    assert KnownValue(first) == KnownValue(leader);
    if SmallestKeyOfTies(rows, first) { StrLeAntisymmetric(first.key.region, leader.key.region); }
    if first.key.region == leader.key.region {
      forall row | row in rows && KnownValue(row) == KnownValue(first) ensures StrLe(first.key.region, row.key.region) {
        assert RanksBefore(leader, row);
      }
    }
  }

  /**
    A card's first region is the data set's top region exactly when the first largest-degradation row in
    table order has the smallest region key among the ties; the degradation is the same in any case.
   */
  lemma GalleryLeadsWithTopRegionIff(spatial: seq<SpatialRow>, sample: string, k: nat)
    requires k > 0 && KnownRows(spatial, sample) != []
    ensures var known, shown := KnownRows(spatial, sample), CardRegions(spatial, sample, k);
            && shown != [] && shown[0].degradation == Leader(known).degradation
            && (shown[0].region == TopOf(spatial)(sample).region <==> SmallestKeyOfTies(known, FirstLargest(known)))
  {
    var known := KnownRows(spatial, sample);
    CardLeads(spatial, sample, k);
    FirstAgainstLeader(known);
    var i := FirstLargestMeaning(known);
    LeaderRanksFirst(known);
    KnownRowsMembers(spatial, sample);
    assert known[i] in known;
    assert KnownIn(FirstLargest(known), spatial, sample) && KnownIn(Leader(known), spatial, sample);
  }

  /** Two tied regions, the larger key first in the table: the card leads with one, the data set names the other. */
  lemma TiesSplitCardAndTop()
    ensures var spatial := [SpatialRow(SampleKey("s", "b::0", "m"), Some(1.0)),
                            SpatialRow(SampleKey("s", "a::0", "m"), Some(1.0))];
            && CardRegions(spatial, "s", 1) == [Rankings.TopRegion("b::0", Some(1.0))]
            && TopOf(spatial)("s") == Top("s", "a::0")
  {
    var b, a := SpatialRow(SampleKey("s", "b::0", "m"), Some(1.0)), SpatialRow(SampleKey("s", "a::0", "m"), Some(1.0));
    var spatial := [b, a];
    assert spatial == [b] + ([a] + []) && spatial[1..] == [a];
    SelectCons(b, [a] + [], Rankings.SpatialSample, "s");
    SelectCons(a, [], Rankings.SpatialSample, "s");
    FilterCons(b, [a] + [], IsKnown);
    FilterCons(a, [], IsKnown);
    assert KnownRows(spatial, "s") == spatial;
    CardLeads(spatial, "s", 1);
    assert "b::0"[0] == 'b' && "a::0"[0] == 'a';
    assert !StrLe("b::0", "a::0");
    assert Leader([a]) == a && !RanksBefore(b, a);
  }
}
