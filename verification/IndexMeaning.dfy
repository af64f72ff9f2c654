/** When a context is indexable and what its index holds, said on the context's own columns. */
module IndexMeaning {
  import opened Prelude
  import opened Ordering
  import opened Grouping
  import opened Sums
  import opened AnalysisTypes
  import opened ControlMatching
  import opened Geometry
  import opened Indexer

  // ------------------------------------------------------------------ mean areas

  predicate IsKnownArea(area: Option<int>) { area.Some? }

  function AreaValue(area: Option<int>): real { if area.Some? then area.value as real else 0.0 }

  lemma {:induction false} KnownAreasSum(areas: seq<Option<int>>)
    ensures |KnownAreas(areas)| == |Filter(areas, IsKnownArea)|
    ensures SumInts(KnownAreas(areas)) as real == Total(areas, AreaValue)
  {
    if areas != [] {
      KnownAreasSum(areas[1..]);
      assert KnownAreas(areas) == (if areas[0].Some? then [areas[0].value] else []) + KnownAreas(areas[1..]);
      if areas[0].Some? {
        assert KnownAreas(areas)[1..] == KnownAreas(areas[1..]);
        assert SumInts(KnownAreas(areas)) == areas[0].value + SumInts(KnownAreas(areas[1..]));
      } else {
        assert KnownAreas(areas) == KnownAreas(areas[1..]);
      }
    }
  }

  /** `mean` is a nearest integer to `total / n`, and the even one of two. */
  predicate IsRounded(mean: int, total: int, n: int) {
    -n <= 2 * (mean * n - total) <= n && (2 * (mean * n - total) == n || 2 * (mean * n - total) == -n ==> mean % 2 == 0)
  }

  lemma RoundedMeaning(total: int, n: nat)
    requires n > 0
    ensures IsRounded(RoundedMean(total, n), total, n)
  {
    var q, r := total / n, total % n;
    assert total == q * n + r;
    assert (q + 1) * n == q * n + n;
  }

  /** The area of an anchor is the rounded mean of the known areas of its rows; there is none without a known one. */
  lemma MeanAreaMeaning(areas: seq<Option<int>>) returns (total: int)
    ensures total as real == Total(areas, AreaValue)
    ensures MeanArea(areas).None? <==> Filter(areas, IsKnownArea) == []
    ensures MeanArea(areas).Some? ==> IsRounded(MeanArea(areas).value, total, |Filter(areas, IsKnownArea)|)
  {
    KnownAreasSum(areas);
    total := SumInts(KnownAreas(areas));
    if KnownAreas(areas) != [] { RoundedMeaning(total, |KnownAreas(areas)|); }
  }

  lemma {:induction false} AreasOfRows(rows: seq<ContextRow>)
    ensures IntendedAreas(rows) == MapSeq(rows, (row: ContextRow) => row.intended)
    ensures EffectiveAreas(rows) == MapSeq(rows, (row: ContextRow) => row.effective)
  {
    if rows != [] { AreasOfRows(rows[1..]); }
  }

  // --------------------------------------------------------------------- anchors

  predicate OfAnchor(row: ContextRow, anchor: AnchorKey) {
    row.sample == anchor.sample && row.region == anchor.region && row.invert == anchor.invert
  }

  function RowsAt(anchor: AnchorKey): ContextRow -> bool { (row: ContextRow) => OfAnchor(row, anchor) }

  lemma {:induction false} AnchorRows(context: seq<ContextRow>, anchor: AnchorKey)
    ensures Select(context, Indexer.AnchorOf, anchor) == Filter(context, RowsAt(anchor))
  {
    if context != [] { AnchorRows(context[1..], anchor); }
  }

  /** What a table row says about the context rows of its anchor, of which there is one at least. */
  ghost predicate SummarisesAnchor(row: AnchorRow, context: seq<ContextRow>) {
    var rows := Filter(context, RowsAt(row.key));
    && rows != []
    && (forall r :: r in rows ==> r.isControl == row.isControl)
    && row.intended == MeanArea(MapSeq(rows, (r: ContextRow) => r.intended))
    && row.effective == MeanArea(MapSeq(rows, (r: ContextRow) => r.effective))
    && (forall c :: c in row.conditions <==> exists r :: r in rows && r.op == c.op && r.params == c.params)
    && Distinct(row.conditions)
  }

  lemma AnchorRowMeaning(row: AnchorRow, context: seq<ContextRow>)
    requires IsAnchorRow(row, row.key, Select(context, Indexer.AnchorOf, row.key))
    ensures SummarisesAnchor(row, context)
  {
    var rows := Filter(context, RowsAt(row.key));
    AnchorRows(context, row.key);
    AreasOfRows(rows);
    forall c ensures c in row.conditions <==> exists r :: r in rows && r.op == c.op && r.params == c.params {
      assert c in row.conditions <==> c in ConditionSet(rows);
      if r :| r in rows && r.op == c.op && r.params == c.params { assert ConditionOf(r) == c; }
    }
  }

  /** An anchor counts as insufficient exactly when all its context rows share one condition. */
  lemma InsufficientIff(row: AnchorRow, context: seq<ContextRow>)
    requires SummarisesAnchor(row, context)
    ensures Indexer.Insufficient(row)
            <==> forall r, q :: r in Filter(context, RowsAt(row.key)) && q in Filter(context, RowsAt(row.key)) ==>
                 r.op == q.op && r.params == q.params
  {
    var rows, conditions := Filter(context, RowsAt(row.key)), row.conditions;
    forall r | r in rows ensures ConditionKey(r.op, r.params) in conditions {}
    if |conditions| >= 2 {
      assert conditions[0] in conditions && conditions[1] in conditions && conditions[0] != conditions[1];
    }
  }

  function Polarity(invert: bool): string { if invert then "1" else "0" }

  /**
    One row for each anchor of the context, in the order of sample, region and polarity; conditions
    by operator and parameters.
   */
  lemma TableMeaning(c: Comparison, context: seq<ContextRow>)
    requires IsTable(c.table, context)
    ensures forall i, j :: 0 <= i < j < |c.table| ==>
              var x, y := c.table[i].key, c.table[j].key;
              LexLe([x.sample, x.region, Polarity(x.invert)], [y.sample, y.region, Polarity(y.invert)])
    ensures forall row :: row in c.table ==> SummarisesAnchor(row, context)
    ensures forall r :: r in context ==> exists row :: row in c.table && OfAnchor(r, row.key)
  {
    forall i, j | 0 <= i < j < |c.table|
      ensures var x, y := c.table[i].key, c.table[j].key;
              LexLe([x.sample, x.region, Polarity(x.invert)], [y.sample, y.region, Polarity(y.invert)])
    {
      assert RowLe(c.table[i], c.table[j]);
      AnchorOrder(c.table[i].key, c.table[j].key);
    }
    forall row | row in c.table ensures SummarisesAnchor(row, context) { AnchorRowMeaning(row, context); }
    forall r | r in context ensures exists row :: row in c.table && OfAnchor(r, row.key) {
      RowInGroup(context, Indexer.AnchorOf, r);
      assert InTable(c.table, Indexer.AnchorOf(r));
    }
  }

  lemma FlagOrder(a: bool, b: bool)
    ensures StrLe(Polarity(a), Polarity(b)) <==> !a || b
  {
    StrLeTotal(Polarity(a), Polarity(b));
  }

  lemma AnchorOrder(x: AnchorKey, y: AnchorKey)
    ensures AnchorLe(x, y) <==>
            LexLe([x.sample, x.region, Polarity(x.invert)], [y.sample, y.region, Polarity(y.invert)])
  {
    LexHead(x.sample, [x.region, Polarity(x.invert)], y.sample, [y.region, Polarity(y.invert)]);
    LexHead(x.region, [Polarity(x.invert)], y.region, [Polarity(y.invert)]);
    LexOne(Polarity(x.invert), Polarity(y.invert));
    FlagOrder(x.invert, y.invert);
    assert [x.sample, x.region, Polarity(x.invert)] == [x.sample] + [x.region, Polarity(x.invert)];
    assert [y.sample, y.region, Polarity(y.invert)] == [y.sample] + [y.region, Polarity(y.invert)];
    assert [x.region, Polarity(x.invert)] == [x.region] + [Polarity(x.invert)];
    assert [y.region, Polarity(y.invert)] == [y.region] + [Polarity(y.invert)];
  }

  lemma ConditionOrder(x: ConditionKey, y: ConditionKey)
    ensures ConditionLe(x, y) <==> LexLe([x.op, x.params], [y.op, y.params])
  {
    LexPair(x.op, x.params, y.op, y.params);
  }

  lemma PairOrder(x: Pair, y: Pair)
    ensures PairLe(x, y)
            <==> LexLe([x.target.sample, x.target.region, x.control.region, x.condition.op, x.condition.params],
                       [y.target.sample, y.target.region, y.control.region, y.condition.op, y.condition.params])
  {
    var a, b, c := x.target.sample, x.target.region, x.control.region;
    var a', b', c' := y.target.sample, y.target.region, y.control.region;
    var d, d' := [x.condition.op, x.condition.params], [y.condition.op, y.condition.params];
    ConditionOrder(x.condition, y.condition);
    LexHead(a, [b, c] + d, a', [b', c'] + d');
    LexHead(b, [c] + d, b', [c'] + d');
    LexHead(c, d, c', d');
    assert PairFields(x) == [a] + ([b, c] + d) && PairFields(y) == [a'] + ([b', c'] + d');
    assert [b, c] + d == [b] + ([c] + d) && [b', c'] + d' == [b'] + ([c'] + d');
  }

  lemma PairLeIsPreorder()
    ensures TotalPreorder(PairLe)
  {
    forall x, y ensures PairLe(x, y) || PairLe(y, x) {
      PairOrder(x, y);
      PairOrder(y, x);
      LexLeTotal(PairFields(x), PairFields(y));
    }
    forall x, y, z | PairLe(x, y) && PairLe(y, z) ensures PairLe(x, z) {
      PairOrder(x, y);
      PairOrder(y, z);
      PairOrder(x, z);
      LexLeTransitive(PairFields(x), PairFields(y), PairFields(z));
    }
  }

  function PairFields(x: Pair): seq<string> {
    [x.target.sample, x.target.region, x.control.region, x.condition.op, x.condition.params]
  }

  /** Pairs come in the order of sample, target region, control region, operator and parameters. */
  lemma PairsOrdered(c: Comparison, context: seq<ContextRow>, tolerance: real, entries: seq<Entry>, anchors: Anchors)
    requires IndexFrom(c, context, tolerance, entries, anchors)
    ensures forall i, j :: 0 <= i < j < |c.pairs| ==>
              var x, y := c.pairs[i], c.pairs[j];
              LexLe([x.target.sample, x.target.region, x.control.region, x.condition.op, x.condition.params],
                    [y.target.sample, y.target.region, y.control.region, y.condition.op, y.condition.params])
  {
    var pairs := TallyOf(CombosOf(entries), anchors, tolerance).value.pairs;
    PairLeIsPreorder();
    SortSorts(pairs, PairLe);
    forall i, j | 0 <= i < j < |c.pairs| ensures LexLe(PairFields(c.pairs[i]), PairFields(c.pairs[j])) {
      assert PairLe(c.pairs[i], c.pairs[j]);
      PairOrder(c.pairs[i], c.pairs[j]);
    }
  }

  // ------------------------------------------------------------------- indexable

  predicate AreasClash(a: Option<int>, b: Option<int>) { a.Some? && b.Some? && a.value != b.value }

  /** Two rows of one region: one kind, and within a sample no two known areas that differ, random regions aside. */
  predicate RowsAgree(x: ContextRow, y: ContextRow) {
    x.region == y.region ==>
      && x.kind == y.kind
      && (x.sample == y.sample && x.kind != "random_area_match" ==>
          !AreasClash(x.intended, y.intended) && !AreasClash(x.effective, y.effective))
  }

  lemma AgreeMeaning(x: ContextRow, y: ContextRow)
    ensures Agree(GeoOf(x), GeoOf(y), RANDOM_KIND) <==> RowsAgree(x, y)
  {
  }

  lemma GeoRows(context: seq<ContextRow>)
    ensures var rows := MapSeq(context, GeoOf);
            && (forall x :: x in context ==> GeoOf(x) in rows)
            && (forall u :: u in rows ==> exists x :: x in context && u == GeoOf(x))
  {
    var rows := MapSeq(context, GeoOf);
    forall x | x in context ensures GeoOf(x) in rows {
      var i :| 0 <= i < |context| && context[i] == x;
      assert rows[i] == GeoOf(x);
    }
    forall u | u in rows ensures exists x :: x in context && u == GeoOf(x) {
      var i :| 0 <= i < |rows| && rows[i] == u;
      assert context[i] in context;
    }
  }

  lemma GeometryMeaning(context: seq<ContextRow>)
    ensures GeometryAgrees(context) <==> forall x, y :: x in context && y in context ==> RowsAgree(x, y)
  {
    var rows := MapSeq(context, GeoOf);
    GeoRows(context);
    if GeometryAgrees(context) {
      forall x, y | x in context && y in context ensures RowsAgree(x, y) {
        assert Agree(GeoOf(x), GeoOf(y), RANDOM_KIND);
        AgreeMeaning(x, y);
      }
    }
    if forall x, y :: x in context && y in context ==> RowsAgree(x, y) {
      forall u, v | u in rows && v in rows ensures Agree(u, v, RANDOM_KIND) {
        var x :| x in context && u == GeoOf(x);
        var y :| y in context && v == GeoOf(y);
        AgreeMeaning(x, y);
      }
    }
  }

  /**
    An anchor whose rows are in order: one control flag, named conditions, no negative mean area, no
    reference to itself.
   */
  ghost predicate AnchorInOrder(context: seq<ContextRow>, anchor: AnchorKey) {
    var rows := Filter(context, RowsAt(anchor));
    var intended := MeanArea(MapSeq(rows, (r: ContextRow) => r.intended));
    var effective := MeanArea(MapSeq(rows, (r: ContextRow) => r.effective));
    && (forall r, q :: r in rows && q in rows ==> r.isControl == q.isControl)
    && (forall r :: r in rows ==> r.op != "" && r.params != "")
    && (intended.Some? ==> intended.value >= 0) && (effective.Some? ==> effective.value >= 0)
    && (rows != [] && rows[0].isControl ==> TargetRegion(rows[0].regionParams) != Some(anchor.region))
  }

  lemma AnchorInOrderIff(context: seq<ContextRow>, anchor: AnchorKey)
    ensures AnchorInOrder(context, anchor)
            <==> AnchorFailure(Select(context, Indexer.AnchorOf, anchor)) == None && !SelfNaming(context, anchor)
  {
    var rows := Filter(context, RowsAt(anchor));
    AnchorRows(context, anchor);
    AreasOfRows(rows);
    forall i | 0 <= i < |rows| ensures rows[i] in rows {}
  }

  /**
    The indexer accepts a context exactly when its names are there, its geometry agrees, and every
    anchor is in order.
   */
  lemma IndexableMeaning(context: seq<ContextRow>)
    ensures Indexable(context)
            <==> && (forall row :: row in context ==> row.sample != "" && row.region != "")
                 && (forall x, y :: x in context && y in context ==> RowsAgree(x, y))
                 && (forall anchor :: AnchorInOrder(context, anchor))
  {
    var order := Keys(context, Indexer.AnchorOf);
    GeometryMeaning(context);
    KeysHaveRows(context, Indexer.AnchorOf);
    forall i | 0 <= i < |context| ensures context[i] in context {}
    forall anchor ensures AnchorInOrder(context, anchor)
                          <==> FailureAt(context)(anchor) == None && !SelfNaming(context, anchor) {
      AnchorInOrderIff(context, anchor);
    }
    forall anchor | anchor !in order ensures AnchorInOrder(context, anchor) {
      AnchorRows(context, anchor);
      AnchorInOrderIff(context, anchor);
    }
    OrderCovers(context, order);
  }

  lemma OrderCovers(context: seq<ContextRow>, order: seq<AnchorKey>)
    ensures NoneFails(context, order) <==> forall anchor :: anchor in order ==> FailureAt(context)(anchor) == None
  {
    forall i | 0 <= i < |order| ensures order[i] in order {}
  }
}
