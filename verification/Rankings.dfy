/** Sample rankings and galleries: `_build_full_rankings` and `_build_sample_rankings` of `ssat/report/assembler.py`. */
module Rankings {
  import opened Prelude
  import opened Ordering
  import opened Sums
  import opened Grouping
  import opened Mapping
  import opened Aggregate

  datatype SampleRow = SampleRow(sample: string, gtLabel: Option<int>, cleanCorrect: Option<bool>, score: Option<real>)

  datatype TopRegion = TopRegion(region: string, degradation: Option<real>)

  /** `topRegions` is filled in only for highlighted samples. */
  datatype Card = Card(row: SampleRow, topRegions: seq<TopRegion>)

  /** The gallery sizes and the number of regions shown per sample. */
  datatype Sizes = Sizes(topK: nat, bottomK: nat, regionTopK: nat)

  predicate HasScore(row: SampleRow) { row.score.Some? }

  predicate NoScore(row: SampleRow) { row.score.None? }

  function ScoreOf(row: SampleRow): real { if row.score.Some? then row.score.value else 0.0 }

  /** `sorted(..., reverse=True)` keeps the order of equal scores. */
  predicate HigherFirst(x: SampleRow, y: SampleRow) { ScoreOf(x) >= ScoreOf(y) }

  predicate BySample(x: SampleRow, y: SampleRow) { StrLe(x.sample, y.sample) }

  function Scored(rows: seq<SampleRow>): seq<SampleRow> { SortBy(Filter(rows, HasScore), HigherFirst) }

  function Unscored(rows: seq<SampleRow>): seq<SampleRow> { SortBy(Filter(rows, NoScore), BySample) }

  /** `s[:k]`. */
  function Take<T>(s: seq<T>, k: nat): seq<T> { if k <= |s| then s[..k] else s }

  /** `s[-k:]` for positive `k`. */
  function TakeLast<T>(s: seq<T>, k: nat): seq<T> { if k <= |s| then s[|s| - k..] else s }

  function Reversed<T>(s: seq<T>): (r: seq<T>)
    ensures |r| == |s| && forall i :: 0 <= i < |s| ==> r[i] == s[|s| - 1 - i]
  {
    if s == [] then [] else Reversed(s[1..]) + [s[0]]
  }

  function SampleIds(rows: seq<SampleRow>): set<string> { set row | row in rows :: row.sample }

  function TopIds(scored: seq<SampleRow>, sizes: Sizes): set<string> {
    if sizes.topK > 0 then SampleIds(Take(scored, sizes.topK)) else {}
  }

  function BottomIds(scored: seq<SampleRow>, sizes: Sizes): set<string> {
    if sizes.bottomK > 0 then SampleIds(TakeLast(scored, sizes.bottomK)) else {}
  }

  /** `highlighted_ids`. */
  function Highlighted(scored: seq<SampleRow>, sizes: Sizes): set<string> {
    TopIds(scored, sizes) + BottomIds(scored, sizes)
  }

  function SpatialSample(row: SpatialRow): string { row.key.sample }

  predicate HigherDegradationFirst(x: SpatialRow, y: SpatialRow) { KnownValue(x) >= KnownValue(y) }

  predicate IsUnknown(row: SpatialRow) { row.degradation.None? }

  function TopRegionOf(row: SpatialRow): TopRegion { TopRegion(row.key.region, row.degradation) }

  /** `_top_regions_for_sample`, without the grades. */
  function TopRegionsForSample(rows: seq<SpatialRow>, k: nat): seq<TopRegion> {
    MapSeq(Take(SortBy(Filter(rows, IsKnown), HigherDegradationFirst) + Filter(rows, IsUnknown), k), TopRegionOf)
  }

  function CardOf(spatial: seq<SpatialRow>, highlighted: set<string>, regionTopK: nat): SampleRow -> Card {
    (row: SampleRow) => Card(row, if row.sample in highlighted
                     then TopRegionsForSample(Select(spatial, SpatialSample, row.sample), regionTopK) else [])
  }

  function FullRankings(rows: seq<SampleRow>, spatial: seq<SpatialRow>, sizes: Sizes): seq<Card> {
    MapSeq(Scored(rows) + Unscored(rows), CardOf(spatial, Highlighted(Scored(rows), sizes), sizes.regionTopK))
  }

  /** `bySample` holds the rows of each highlighted sample that has any. */
  ghost predicate GroupsHighlighted(bySample: map<string, seq<SpatialRow>>, rows: seq<SpatialRow>,
                                    highlighted: set<string>)
  {
    && (forall s :: s in bySample ==> s in highlighted && bySample[s] == Select(rows, SpatialSample, s))
    && (forall s :: s in highlighted && s !in bySample ==> Select(rows, SpatialSample, s) == [])
  }

  lemma GroupOneMore(bySample: map<string, seq<SpatialRow>>, rows: seq<SpatialRow>, highlighted: set<string>,
                     row: SpatialRow)
    requires GroupsHighlighted(bySample, rows, highlighted)
    ensures var s := row.key.sample;
            var bySample' := if s in highlighted
                             then bySample[s := (if s in bySample then bySample[s] else []) + [row]] else bySample;
            GroupsHighlighted(bySample', rows + [row], highlighted)
  {
    forall s ensures Select(rows + [row], SpatialSample, s)
                     == Select(rows, SpatialSample, s) + (if row.key.sample == s then [row] else [])
    {
      SelectAppend(rows, [row], SpatialSample, s);
    }
  }

  method GroupHighlighted(spatial: seq<SpatialRow>, highlighted: set<string>)
    returns (bySample: map<string, seq<SpatialRow>>)
    ensures GroupsHighlighted(bySample, spatial, highlighted)
  {
    bySample := map[];
    for i := 0 to |spatial|
      invariant GroupsHighlighted(bySample, spatial[..i], highlighted)
    {
      GroupOneMore(bySample, spatial[..i], highlighted, spatial[i]);
      assert spatial[..i + 1] == spatial[..i] + [spatial[i]];
      var s := spatial[i].key.sample;
      if s in highlighted {
        bySample := bySample[s := (if s in bySample then bySample[s] else []) + [spatial[i]]];
      }
    }
    assert spatial[..|spatial|] == spatial;
  }

  /** `_build_full_rankings`: regions are grouped for highlighted samples only. */
  method BuildFullRankings(rows: seq<SampleRow>, spatial: seq<SpatialRow>, sizes: Sizes) returns (cards: seq<Card>)
    ensures cards == FullRankings(rows, spatial, sizes)
  {
    var highlighted := Highlighted(Scored(rows), sizes);
    var bySample := GroupHighlighted(spatial, highlighted);
    cards := BuildCards(Scored(rows) + Unscored(rows), spatial, highlighted, bySample, sizes.regionTopK);
  }

  method BuildCards(ordered: seq<SampleRow>, ghost spatial: seq<SpatialRow>, highlighted: set<string>,
                    bySample: map<string, seq<SpatialRow>>, regionTopK: nat)
    returns (cards: seq<Card>)
    requires GroupsHighlighted(bySample, spatial, highlighted)
    ensures cards == MapSeq(ordered, CardOf(spatial, highlighted, regionTopK))
  {
    cards := [];
    for i := 0 to |ordered|
      invariant |cards| == i
      invariant forall j :: 0 <= j < i ==> cards[j] == CardOf(spatial, highlighted, regionTopK)(ordered[j])
    {
      var row := ordered[i];
      var regions := [];
      if row.sample in highlighted {
        regions := TopRegionsForSample(if row.sample in bySample then bySample[row.sample] else [], regionTopK);
      }
      cards := cards + [Card(row, regions)];
    }
  }

  // ------------------------------------------------------------------ galleries

  predicate CardScored(card: Card) { card.row.score.Some? }

  /** `_build_sample_rankings`: computed from the cards alone. */
  function MostVulnerable(cards: seq<Card>, sizes: Sizes): seq<Card> {
    if sizes.topK > 0 then Take(Filter(cards, CardScored), sizes.topK) else []
  }

  function MostRobust(cards: seq<Card>, sizes: Sizes): seq<Card> {
    if sizes.bottomK > 0 then Reversed(TakeLast(Filter(cards, CardScored), sizes.bottomK)) else []
  }

  function CardIds(cards: seq<Card>): set<string> { set card | card in cards :: card.row.sample }

  // ----------------------------------------------------------------- rankings

  lemma {:induction false} SplitByScore(rows: seq<SampleRow>)
    ensures multiset(Filter(rows, HasScore)) + multiset(Filter(rows, NoScore)) == multiset(rows)
  {
    if rows != [] {
      SplitByScore(rows[1..]);
      assert rows == [rows[0]] + rows[1..];
    }
  }

  lemma {:induction false} FilterAll<T>(s: seq<T>, p: T -> bool, all: bool)
    requires forall i :: 0 <= i < |s| ==> p(s[i]) == all
    ensures Filter(s, p) == if all then s else []
  {
    if s != [] { FilterAll(s[1..], p, all); }
  }

  lemma ScoredSorted(rows: seq<SampleRow>)
    ensures Sorted(Scored(rows), HigherFirst)
    ensures forall row :: row in Scored(rows) <==> row in rows && row.score.Some?
    ensures forall row :: row in Unscored(rows) <==> row in rows && row.score.None?
  {
    SortSorts(Filter(rows, HasScore), HigherFirst);
    SortMembers(Filter(rows, HasScore), HigherFirst);
    SortMembers(Filter(rows, NoScore), BySample);
    FilterMembers(rows, HasScore);
    FilterMembers(rows, NoScore);
  }

  function RowOfCard(card: Card): SampleRow { card.row }

  lemma {:induction false} RowsOfCards(rows: seq<SampleRow>, cardOf: SampleRow -> Card)
    requires forall row :: cardOf(row).row == row
    ensures MapSeq(MapSeq(rows, cardOf), RowOfCard) == rows
  {
    if rows != [] {
      RowsOfCards(rows[1..], cardOf);
      assert MapSeq(rows, cardOf)[1..] == MapSeq(rows[1..], cardOf);
    }
  }

  lemma RankedRows(rows: seq<SampleRow>, spatial: seq<SpatialRow>, sizes: Sizes)
    ensures MapSeq(FullRankings(rows, spatial, sizes), RowOfCard) == Scored(rows) + Unscored(rows)
    ensures multiset(Scored(rows) + Unscored(rows)) == multiset(rows)
  {
    RowsOfCards(Scored(rows) + Unscored(rows), CardOf(spatial, Highlighted(Scored(rows), sizes), sizes.regionTopK));
    SortPermutes(Filter(rows, HasScore), HigherFirst);
    SortPermutes(Filter(rows, NoScore), BySample);
    SplitByScore(rows);
  }

  lemma UnscoredSorted(rows: seq<SampleRow>)
    ensures Sorted(Unscored(rows), BySample)
  {
    StrLeIsTotalOrder();
    SortSorts(Filter(rows, NoScore), BySample);
  }

  /** Every sample is ranked once; scored samples come first, in non-increasing score, then the others by id. */
  lemma RankingsArePermutation(rows: seq<SampleRow>, spatial: seq<SpatialRow>, sizes: Sizes)
    ensures var ranked := MapSeq(FullRankings(rows, spatial, sizes), RowOfCard);
            var n := |Scored(rows)|;
            && multiset(ranked) == multiset(rows)
            && n <= |ranked|
            && (forall i :: 0 <= i < |ranked| ==> (ranked[i].score.Some? <==> i < n))
            && (forall i, j :: 0 <= i < j < n ==> ranked[i].score.value >= ranked[j].score.value)
            && (forall i, j :: n <= i < j < |ranked| ==> StrLe(ranked[i].sample, ranked[j].sample))
  {
    RankedRows(rows, spatial, sizes);
    ScoredFirst(rows);
    var ranked, n := Scored(rows) + Unscored(rows), |Scored(rows)|;
    forall i, j | 0 <= i < j < n ensures ranked[i].score.value >= ranked[j].score.value {
      assert ScoreOf(ranked[i]) >= ScoreOf(ranked[j]);
    }
  }

  lemma ScoredFirst(rows: seq<SampleRow>)
    ensures var ranked, n := Scored(rows) + Unscored(rows), |Scored(rows)|;
            && (forall i :: 0 <= i < |ranked| ==> (ranked[i].score.Some? <==> i < n))
            && (forall i, j :: 0 <= i < j < n ==> ScoreOf(ranked[i]) >= ScoreOf(ranked[j]))
            && (forall i, j :: n <= i < j < |ranked| ==> StrLe(ranked[i].sample, ranked[j].sample))
  {
    var scored, unscored := Scored(rows), Unscored(rows);
    var ranked := scored + unscored;
    ScoredSorted(rows);
    forall i | 0 <= i < |ranked| ensures ranked[i].score.Some? <==> i < |scored| {
      if i < |scored| { assert ranked[i] in scored; } else { assert ranked[i] in unscored; }
    }
    forall i, j | 0 <= i < j < |scored| ensures ScoreOf(ranked[i]) >= ScoreOf(ranked[j]) {
      assert HigherFirst(scored[i], scored[j]);
    }
    UnscoredSorted(rows);
    forall i, j | |scored| <= i < j < |ranked| ensures StrLe(ranked[i].sample, ranked[j].sample) {
      assert BySample(unscored[i - |scored|], unscored[j - |scored|]);
    }
  }

  // ------------------------------------------------------------- regions on a card

  function KnownOf(sample: string): SpatialRow -> bool {
    (row: SpatialRow) => row.key.sample == sample && row.degradation.Some?
  }

  function UnknownOf(sample: string): SpatialRow -> bool {
    (row: SpatialRow) => row.key.sample == sample && row.degradation.None?
  }

  lemma {:induction false} SampleRows(spatial: seq<SpatialRow>, sample: string)
    ensures Filter(Select(spatial, SpatialSample, sample), IsKnown) == Filter(spatial, KnownOf(sample))
    ensures Filter(Select(spatial, SpatialSample, sample), IsUnknown) == Filter(spatial, UnknownOf(sample))
  {
    if spatial != [] { SampleRows(spatial[1..], sample); }
  }

  /** The sample's measured regions from the largest degradation down, then the others, and of these the first `k`. */
  ghost predicate AreCardRegions(regions: seq<TopRegion>, spatial: seq<SpatialRow>, sample: string, k: nat,
                                 ranked: seq<SpatialRow>)
  {
    var all := ranked + Filter(spatial, UnknownOf(sample));
    && multiset(ranked) == multiset(Filter(spatial, KnownOf(sample)))
    && (forall row :: row in ranked ==> row.degradation.Some?)
    && (forall i, j :: 0 <= i < j < |ranked| ==> ranked[i].degradation.value >= ranked[j].degradation.value)
    && |regions| == (if k <= |all| then k else |all|)
    && (forall i :: 0 <= i < |regions| ==> regions[i] == TopRegion(all[i].key.region, all[i].degradation))
  }

  lemma TopRegionsForSampleMeaning(spatial: seq<SpatialRow>, sample: string, k: nat) returns (ranked: seq<SpatialRow>)
    ensures AreCardRegions(TopRegionsForSample(Select(spatial, SpatialSample, sample), k), spatial, sample, k, ranked)
  {
    var known := Filter(spatial, KnownOf(sample));
    SampleRows(spatial, sample);
    ranked := SortBy(known, HigherDegradationFirst);
    SortPermutes(known, HigherDegradationFirst);
    SortSorts(known, HigherDegradationFirst);
    SortMembers(known, HigherDegradationFirst);
    FilterMembers(spatial, KnownOf(sample));
    assert forall row :: row in ranked ==> row.degradation.Some?;
    forall i | 0 <= i < |ranked| ensures ranked[i].degradation.Some? { assert ranked[i] in ranked; }
    forall i, j | 0 <= i < j < |ranked| ensures ranked[i].degradation.value >= ranked[j].degradation.value {
      assert HigherDegradationFirst(ranked[i], ranked[j]);
    }
  }

  /** A highlighted sample's card lists its regions, any other card lists none. */
  lemma CardMeaning(rows: seq<SampleRow>, spatial: seq<SpatialRow>, sizes: Sizes, i: nat)
    returns (ranked: seq<SpatialRow>)
    requires i < |FullRankings(rows, spatial, sizes)|
    ensures var card := FullRankings(rows, spatial, sizes)[i];
            if card.row.sample in Highlighted(Scored(rows), sizes)
            then AreCardRegions(card.topRegions, spatial, card.row.sample, sizes.regionTopK, ranked)
            else card.topRegions == []
  {
    ranked := TopRegionsForSampleMeaning(spatial, FullRankings(rows, spatial, sizes)[i].row.sample, sizes.regionTopK);
  }

  /**
    The galleries: the first `topK` and, in reverse, the last `bottomK` of the scored cards; a size
    of zero gives none.
   */
  lemma GalleriesMeaning(cards: seq<Card>, sizes: Sizes)
    ensures var scored := Filter(cards, (card: Card) => card.row.score.Some?);
            var top, bottom := MostVulnerable(cards, sizes), MostRobust(cards, sizes);
            && |top| == (if sizes.topK <= |scored| then sizes.topK else |scored|)
            && (forall i :: 0 <= i < |top| ==> top[i] == scored[i])
            && |bottom| == (if sizes.bottomK <= |scored| then sizes.bottomK else |scored|)
            && (forall i :: 0 <= i < |bottom| ==> bottom[i] == scored[|scored| - 1 - i])
  {
    var named := (card: Card) => card.row.score.Some?;
    FilterSame(cards, CardScored, named);
  }

  /** The scored cards, recomputed by filtering, are the cards of the scored rows in their order. */
  lemma ScoredCards(rows: seq<SampleRow>, spatial: seq<SpatialRow>, sizes: Sizes)
    ensures var cardOf := CardOf(spatial, Highlighted(Scored(rows), sizes), sizes.regionTopK);
            Filter(FullRankings(rows, spatial, sizes), CardScored) == MapSeq(Scored(rows), cardOf)
  {
    var scored, unscored := Scored(rows), Unscored(rows);
    var cardOf := CardOf(spatial, Highlighted(scored, sizes), sizes.regionTopK);
    ScoredSorted(rows);
    MapAppend(scored, unscored, cardOf);
    FilterAppend(MapSeq(scored, cardOf), MapSeq(unscored, cardOf), CardScored);
    forall i | 0 <= i < |scored| ensures CardScored(MapSeq(scored, cardOf)[i]) { assert scored[i] in scored; }
    forall i | 0 <= i < |unscored| ensures !CardScored(MapSeq(unscored, cardOf)[i]) { assert unscored[i] in unscored; }
    FilterAll(MapSeq(scored, cardOf), CardScored, true);
    FilterAll(MapSeq(unscored, cardOf), CardScored, false);
  }

  lemma TakeMapped(rows: seq<SampleRow>, cardOf: SampleRow -> Card, k: nat)
    ensures Take(MapSeq(rows, cardOf), k) == MapSeq(Take(rows, k), cardOf)
  {
    assert |Take(MapSeq(rows, cardOf), k)| == |MapSeq(Take(rows, k), cardOf)|;
  }

  lemma TakeLastMapped(rows: seq<SampleRow>, cardOf: SampleRow -> Card, k: nat)
    ensures TakeLast(MapSeq(rows, cardOf), k) == MapSeq(TakeLast(rows, k), cardOf)
  {
    assert |TakeLast(MapSeq(rows, cardOf), k)| == |MapSeq(TakeLast(rows, k), cardOf)|;
  }

  lemma IdsOfMapped(rows: seq<SampleRow>, cardOf: SampleRow -> Card)
    requires forall row :: cardOf(row).row == row
    ensures CardIds(MapSeq(rows, cardOf)) == SampleIds(rows)
  {
    var cards := MapSeq(rows, cardOf);
    forall id ensures id in CardIds(cards) <==> id in SampleIds(rows) {
      if id in CardIds(cards) {
        var card :| card in cards && card.row.sample == id;
        var i :| 0 <= i < |cards| && cards[i] == card;
        assert rows[i] in rows;
      }
      if id in SampleIds(rows) {
        var row :| row in rows && row.sample == id;
        var i :| 0 <= i < |rows| && rows[i] == row;
        assert cards[i] in cards;
      }
    }
  }

  lemma IdsOfReversed(cards: seq<Card>)
    ensures CardIds(Reversed(cards)) == CardIds(cards)
  {
    forall card ensures card in Reversed(cards) <==> card in cards {
      if card in Reversed(cards) {
        var i :| 0 <= i < |cards| && Reversed(cards)[i] == card;
        assert cards[|cards| - 1 - i] == card;
      }
      if card in cards {
        var i :| 0 <= i < |cards| && cards[i] == card;
        assert Reversed(cards)[|cards| - 1 - i] == card;
      }
    }
  }

  lemma VulnerableIds(rows: seq<SampleRow>, spatial: seq<SpatialRow>, sizes: Sizes)
    ensures CardIds(MostVulnerable(FullRankings(rows, spatial, sizes), sizes)) == TopIds(Scored(rows), sizes)
  {
    var scored := Scored(rows);
    var cardOf := CardOf(spatial, Highlighted(scored, sizes), sizes.regionTopK);
    ScoredCards(rows, spatial, sizes);
    TakeMapped(scored, cardOf, sizes.topK);
    IdsOfMapped(Take(scored, sizes.topK), cardOf);
  }

  lemma RobustIds(rows: seq<SampleRow>, spatial: seq<SpatialRow>, sizes: Sizes)
    ensures CardIds(MostRobust(FullRankings(rows, spatial, sizes), sizes)) == BottomIds(Scored(rows), sizes)
  {
    var scored := Scored(rows);
    var cardOf := CardOf(spatial, Highlighted(scored, sizes), sizes.regionTopK);
    ScoredCards(rows, spatial, sizes);
    TakeLastMapped(scored, cardOf, sizes.bottomK);
    IdsOfMapped(TakeLast(scored, sizes.bottomK), cardOf);
    IdsOfReversed(TakeLast(MapSeq(scored, cardOf), sizes.bottomK));
  }

  /** The samples given region detail are exactly the samples of the two galleries computed elsewhere. */
  lemma HighlightedAreGalleries(rows: seq<SampleRow>, spatial: seq<SpatialRow>, sizes: Sizes)
    ensures var cards := FullRankings(rows, spatial, sizes);
            Highlighted(Scored(rows), sizes) == CardIds(MostVulnerable(cards, sizes))
              + CardIds(MostRobust(cards, sizes))
  {
    VulnerableIds(rows, spatial, sizes);
    RobustIds(rows, spatial, sizes);
  }

  ghost predicate DistinctSamples(rows: seq<SampleRow>) {
    forall i, j :: 0 <= i < j < |rows| ==> rows[i].sample != rows[j].sample
  }

  lemma ScoredSamplesDistinct(rows: seq<SampleRow>)
    requires DistinctSamples(rows)
    ensures DistinctSamples(Scored(rows))
  {
    assert Distinct(rows);
    FilterDistinct(rows, HasScore);
    SortDistinct(Filter(rows, HasScore), HigherFirst);
    ScoredSorted(rows);
    var scored := Scored(rows);
    forall i, j | 0 <= i < j < |scored| ensures scored[i].sample != scored[j].sample {
      assert scored[i] in rows && scored[j] in rows;
      var k :| 0 <= k < |rows| && rows[k] == scored[i];
      var l :| 0 <= l < |rows| && rows[l] == scored[j];
      assert k != l;
    }
  }

  /** The galleries share no sample exactly when they fit side by side, or one of them is empty. */
  lemma GalleriesDisjoint(rows: seq<SampleRow>, spatial: seq<SpatialRow>, sizes: Sizes)
    requires DistinctSamples(rows)
    ensures var cards := FullRankings(rows, spatial, sizes);
            var n := |Scored(rows)|;
            CardIds(MostVulnerable(cards, sizes)) !! CardIds(MostRobust(cards, sizes))
            <==> (sizes.topK == 0 || sizes.bottomK == 0 || n == 0 || n >= sizes.topK + sizes.bottomK)
  {
    VulnerableIds(rows, spatial, sizes);
    RobustIds(rows, spatial, sizes);
    ScoredSamplesDistinct(rows);
    var scored := Scored(rows);
    if sizes.topK > 0 && sizes.bottomK > 0 { HeadAndTailDisjoint(scored, sizes.topK, sizes.bottomK); }
  }

  lemma HeadAndTailDisjoint(rows: seq<SampleRow>, k: nat, b: nat)
    requires DistinctSamples(rows) && k > 0 && b > 0
    ensures SampleIds(Take(rows, k)) !! SampleIds(TakeLast(rows, b)) <==> (rows == [] || |rows| >= k + b)
  {
    var head, tail := Take(rows, k), TakeLast(rows, b);
    var n := |rows|;
    if n > 0 && n < k + b {
      var i := if b <= n then n - b else 0;
      assert head[i] == rows[i] && head[i] in head;
      assert tail[0] == rows[i] && tail[0] in tail;
      assert rows[i].sample in SampleIds(head) && rows[i].sample in SampleIds(tail);
    }
    if n >= k + b {
      forall id | id in SampleIds(head) ensures id !in SampleIds(tail) {
        var x :| x in head && x.sample == id;
        var i :| 0 <= i < k && head[i] == x;
        assert rows[i] == x;
        forall y | y in tail ensures y.sample != id {
          var j :| 0 <= j < b && tail[j] == y;
          assert rows[n - b + j] == y;
        }
      }
    }
  }
}
