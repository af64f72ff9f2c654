/** Anchor table, control pairs and coverage of one item context: `ComparisonIndexer` of `ssat/analysis/indexer.py`. */
module Indexer {
  import opened Prelude
  import opened Ordering
  import opened Grouping
  import opened AnalysisTypes
  import opened ControlMatching
  import opened Geometry
  import Sums

  /** One row of the item context; `region` is its region key. */
  datatype ContextRow = ContextRow(
    sample: string, region: string, kind: string, intended: Option<int>, effective: Option<int>,
    invert: bool, op: string, params: string, isControl: bool, regionParams: Option<Json>)

  const RANDOM_KIND := "random_area_match"

  function AnchorOf(row: ContextRow): AnchorKey { AnchorKey(row.sample, row.region, row.invert) }

  function ConditionOf(row: ContextRow): ConditionKey { ConditionKey(row.op, row.params) }

  function GeoOf(row: ContextRow): GeoRow<string, string> {
    GeoRow(row.sample, row.region, row.kind, row.intended, row.effective)
  }

  predicate ConditionLe(x: ConditionKey, y: ConditionKey) {
    StrLt(x.op, y.op) || (x.op == y.op && StrLe(x.params, y.params))
  }

  predicate AnchorLe(x: AnchorKey, y: AnchorKey) {
    StrLt(x.sample, y.sample)
    || (x.sample == y.sample && (StrLt(x.region, y.region) || (x.region == y.region && (!x.invert || y.invert))))
  }

  lemma ConditionLeIsTotalOrder()
    ensures TotalOrder(ConditionLe)
  {
    StrLeIsTotalOrder();
  }

  lemma AnchorLeIsTotalOrder()
    ensures TotalOrder(AnchorLe)
  {
    StrLeIsTotalOrder();
  }

  // ------------------------------------------------------------- anchor rows

  /** Python's `round(total / count)`: to the nearest integer, ties to even. */
  function RoundedMean(total: int, count: nat): int
    requires count > 0
  {
    var q, r := total / count, total % count;
    if 2 * r < count then q else if 2 * r > count then q + 1 else if q % 2 == 0 then q else q + 1
  }

  function KnownAreas(areas: seq<Option<int>>): seq<int> {
    if areas == [] then []
    else (if areas[0].Some? then [areas[0].value] else []) + KnownAreas(areas[1..])
  }

  function SumInts(s: seq<int>): int { if s == [] then 0 else s[0] + SumInts(s[1..]) }

  /** `_mean_area`. */
  function MeanArea(areas: seq<Option<int>>): Option<int> {
    var known := KnownAreas(areas);
    if known == [] then None else Some(RoundedMean(SumInts(known), |known|))
  }

  function IntendedAreas(rows: seq<ContextRow>): seq<Option<int>> {
    if rows == [] then [] else [rows[0].intended] + IntendedAreas(rows[1..])
  }

  function EffectiveAreas(rows: seq<ContextRow>): seq<Option<int>> {
    if rows == [] then [] else [rows[0].effective] + EffectiveAreas(rows[1..])
  }

  function ConditionSet(rows: seq<ContextRow>): set<ConditionKey> {
    set row | row in rows :: ConditionOf(row)
  }

  /** One control flag for the whole anchor, areas averaged over its rows, conditions sorted. */
  ghost predicate IsAnchorRow(row: AnchorRow, key: AnchorKey, rows: seq<ContextRow>) {
    && row.key == key && rows != []
    && (forall r :: r in rows ==> r.isControl == row.isControl)
    && row.intended == MeanArea(IntendedAreas(rows)) && row.effective == MeanArea(EffectiveAreas(rows))
    && IsSortedSet(row.conditions, ConditionSet(rows), ConditionLe)
  }

  /** The anchor row with what matching needs from the first row and from the condition dict. */
  ghost predicate IsEntry(e: Entry, key: AnchorKey, rows: seq<ContextRow>) {
    && IsAnchorRow(e.row, key, rows)
    && e.reference == TargetRegion(rows[0].regionParams)
    && e.conditions == Keys(rows, ConditionOf)
  }

  ghost predicate MixesFlags(rows: seq<ContextRow>) { exists r :: r in rows && r.isControl != rows[0].isControl }

  predicate NegativeAreas(rows: seq<ContextRow>) {
    var intended, effective := MeanArea(IntendedAreas(rows)), MeanArea(EffectiveAreas(rows));
    (intended.Some? && intended.value < 0) || (effective.Some? && effective.value < 0)
  }

  /** What the condition key constructor asks. */
  predicate ConditionsNamed(rows: seq<ContextRow>) {
    forall i :: 0 <= i < |rows| ==> rows[i].op != "" && rows[i].params != ""
  }

  /** Why an anchor with these rows raises, if it does. */
  ghost function AnchorFailure(rows: seq<ContextRow>): Option<Failure> {
    if MixesFlags(rows) then Some(MixedControlFlags)
    else if !ConditionsNamed(rows) then Some(EmptyName)
    else if NegativeAreas(rows) then Some(NegativeArea)
    else None
  }

  /** The body of the per-anchor loop of `_build_anchor_table`. */
  method BuildEntry(key: AnchorKey, rows: seq<ContextRow>) returns (result: Result<Entry, Failure>)
    requires rows != []
    ensures result.Ok? ==>
            AnchorFailure(rows) == None && IsEntry(result.value, key, rows) && AnchorAccepted(result.value.row)
    ensures result.Err? ==> AnchorFailure(rows) == Some(result.error)
  {
    for i := 0 to |rows|
      invariant forall j :: 0 <= j < i ==> rows[j].isControl == rows[0].isControl
    {
      if rows[i].isControl != rows[0].isControl {
        assert rows[i] in rows;
        return Err(MixedControlFlags);
      }
    }
    if !ConditionsNamed(rows) { return Err(EmptyName); }
    ConditionLeIsTotalOrder();
    var conditions := SortedSet(ConditionSet(rows), ConditionLe);
    var row := AnchorRow(key, MeanArea(IntendedAreas(rows)), MeanArea(EffectiveAreas(rows)), rows[0].isControl,
                         conditions);
    assert !MixesFlags(rows);
    if !AnchorAccepted(row) { return Err(NegativeArea); }
    var order, _ := GroupRows(rows, ConditionOf);
    result := Ok(Entry(row, TargetRegion(rows[0].regionParams), order));
  }

  /** The dict of conditions and the sorted condition tuple hold the same conditions, once each. */
  lemma EntryConditions(e: Entry, key: AnchorKey, rows: seq<ContextRow>)
    requires IsEntry(e, key, rows)
    ensures |e.conditions| == |e.row.conditions| && Distinct(e.conditions) && e.conditions != []
    ensures forall c :: c in e.conditions <==> c in e.row.conditions
  {
    KeysAreGroups(rows, ConditionOf);
    forall c ensures c in e.conditions <==> c in e.row.conditions {
      assert c in e.row.conditions <==> c in ConditionSet(rows);
    }
    DistinctSameSet(e.conditions, e.row.conditions);
    assert |multiset(e.conditions)| == |multiset(e.row.conditions)|;
    assert rows[0] in rows;
    assert ConditionOf(rows[0]) in e.conditions;
  }

  // -------------------------------------------------------------- whole index

  function RowOf(e: Entry): AnchorRow { e.row }

  function RowLe(x: AnchorRow, y: AnchorRow): bool { AnchorLe(x.key, y.key) }

  /** `len(condition_keys)` over the control anchors of the table. */
  function ControlConditions(table: seq<AnchorRow>): nat {
    if table == [] then 0
    else (if table[0].isControl then |table[0].conditions| else 0) + ControlConditions(table[1..])
  }

  ghost predicate AreEntries(entries: seq<Entry>, order: seq<AnchorKey>, context: seq<ContextRow>) {
    |entries| == |order| && forall i :: 0 <= i < |order| ==>
      IsEntry(entries[i], order[i], Select(context, AnchorOf, order[i]))
  }

  ghost function FailureAt(context: seq<ContextRow>): AnchorKey -> Option<Failure> {
    key => AnchorFailure(Select(context, AnchorOf, key))
  }

  /** The first anchor that fails, in order of first occurrence, decides the error. */
  ghost predicate FirstFails(context: seq<ContextRow>, order: seq<AnchorKey>, error: Failure) {
    exists i :: 0 <= i < |order| && FailureAt(context)(order[i]) == Some(error)
                && forall j :: 0 <= j < i ==> FailureAt(context)(order[j]) == None
  }

  ghost predicate NoneFails(context: seq<ContextRow>, order: seq<AnchorKey>) {
    forall i :: 0 <= i < |order| ==> FailureAt(context)(order[i]) == None
  }

  method BuildEntries(context: seq<ContextRow>) returns (result: Result<seq<Entry>, Failure>)
    ensures result.Ok? <==> NoneFails(context, Keys(context, AnchorOf))
    ensures result.Err? ==> FirstFails(context, Keys(context, AnchorOf), result.error)
    ensures result.Ok? ==> AreEntries(result.value, Keys(context, AnchorOf), context)
                           && forall e :: e in result.value ==> AnchorAccepted(e.row)
  {
    var order, groups := GroupRows(context, AnchorOf);
    KeysHaveRows(context, AnchorOf);
    result := EntriesInOrder(order, groups, context);
  }

  method EntriesInOrder(order: seq<AnchorKey>, groups: map<AnchorKey, seq<ContextRow>>, ghost context: seq<ContextRow>)
    returns (result: Result<seq<Entry>, Failure>)
    requires forall k :: k in order ==> k in groups && groups[k] == Select(context, AnchorOf, k) != []
    ensures result.Ok? <==> NoneFails(context, order)
    ensures result.Err? ==> FirstFails(context, order, result.error)
    ensures result.Ok? ==> AreEntries(result.value, order, context) && forall e :: e in result.value ==>
            AnchorAccepted(e.row)
  {
    ghost var failure := FailureAt(context);
    var entries: seq<Entry> := [];
    for i := 0 to |order|
      invariant AreEntries(entries, order[..i], context) && NoneFails(context, order[..i])
      invariant forall e :: e in entries ==> AnchorAccepted(e.row)
    {
      assert order[i] in order;
      var built := BuildEntry(order[i], groups[order[i]]);
      assert failure(order[i]) == if built.Err? then Some(built.error) else None;
      if built.Err? {
        FailsFirst(context, order, i, built.error);
        return Err(built.error);
      }
      OneMoreEntry(entries, order, i, context, built.value);
      entries := entries + [built.value];
    }
    assert order[..|order|] == order;
    result := Ok(entries);
  }

  lemma OneMoreEntry(entries: seq<Entry>, order: seq<AnchorKey>, i: nat, context: seq<ContextRow>, e: Entry)
    requires i < |order| && AreEntries(entries, order[..i], context) && NoneFails(context, order[..i])
    requires IsEntry(e, order[i], Select(context, AnchorOf, order[i])) && FailureAt(context)(order[i]) == None
    ensures AreEntries(entries + [e], order[..i + 1], context) && NoneFails(context, order[..i + 1])
  {
    forall j | 0 <= j < i ensures FailureAt(context)(order[j]) == None { assert order[..i][j] == order[j]; }
    forall j | 0 <= j < i ensures IsEntry((entries + [e])[j], order[j], Select(context, AnchorOf, order[j])) {
      assert IsEntry(entries[j], order[..i][j], Select(context, AnchorOf, order[..i][j]));
    }
  }

  lemma FirstFailsNotGeometry(context: seq<ContextRow>, order: seq<AnchorKey>, error: Failure)
    requires FirstFails(context, order, error)
    ensures error != GeometryConflict
  {
  }

  lemma FailsFirst(context: seq<ContextRow>, order: seq<AnchorKey>, i: nat, error: Failure)
    requires i < |order| && NoneFails(context, order[..i]) && FailureAt(context)(order[i]) == Some(error)
    ensures FirstFails(context, order, error) && !NoneFails(context, order)
  {
    forall j | 0 <= j < i ensures FailureAt(context)(order[j]) == None { assert order[..i][j] == order[j]; }
  }

  method IndexByKey(entries: seq<Entry>, ghost order: seq<AnchorKey>) returns (byKey: map<AnchorKey, AnchorRow>)
    requires |entries| == |order| && Distinct(order) && forall i :: 0 <= i < |order| ==> entries[i].row.key == order[i]
    ensures forall e :: e in entries ==> e.row.key in byKey && byKey[e.row.key] == e.row
    ensures forall key :: key in byKey ==> byKey[key].key == key && byKey[key] in Sums.MapSeq(entries, RowOf)
  {
    byKey := map[];
    ghost var rows := Sums.MapSeq(entries, RowOf);
    for i := 0 to |entries|
      invariant forall j :: 0 <= j < i ==> entries[j].row.key in byKey && byKey[entries[j].row.key] == entries[j].row
      invariant forall key :: key in byKey ==> byKey[key].key == key && byKey[key] in rows
    {
      assert rows[i] == entries[i].row;
      byKey := byKey[entries[i].row.key := entries[i].row];
    }
  }

  // ----------------------------------------------------------- conservation

  function Weight(row: AnchorRow): real {
    if row.isControl then |row.conditions| as real else 0.0
  }

  lemma {:induction false} ConditionsAreWeights(table: seq<AnchorRow>)
    ensures ControlConditions(table) as real == Sums.Total(table, Weight)
  {
    if table != [] { ConditionsAreWeights(table[1..]); }
  }

  lemma ConditionsPermuted(s: seq<AnchorRow>, t: seq<AnchorRow>)
    requires multiset(s) == multiset(t)
    ensures ControlConditions(s) == ControlConditions(t)
  {
    ConditionsAreWeights(s);
    ConditionsAreWeights(t);
    Sums.TotalPermutation(s, t, Weight);
  }

  lemma {:induction false} ConditionsAppend(s: seq<AnchorRow>, row: AnchorRow)
    ensures ControlConditions(s + [row]) == ControlConditions(s) + (if row.isControl then |row.conditions| else 0)
  {
    if s == [] {
      assert s + [row] == [row];
    } else {
      assert (s + [row])[1..] == s[1..] + [row];
      ConditionsAppend(s[1..], row);
    }
  }

  lemma {:induction false} CombosCount(entries: seq<Entry>, order: seq<AnchorKey>, context: seq<ContextRow>)
    requires AreEntries(entries, order, context)
    ensures |CombosOf(entries)| == ControlConditions(Sums.MapSeq(entries, RowOf))
  {
    if entries != [] {
      var n := |entries| - 1;
      CombosCount(entries[..n], order[..n], context);
      EntryConditions(entries[n], order[n], Select(context, AnchorOf, order[n]));
      LastEntryCounts(entries);
    }
  }

  lemma LastEntryCounts(entries: seq<Entry>)
    requires entries != [] && |entries[|entries| - 1].conditions| == |entries[|entries| - 1].row.conditions|
    ensures var n := |entries| - 1;
            |CombosOf(entries)| - |CombosOf(entries[..n])|
            == ControlConditions(Sums.MapSeq(entries, RowOf)) - ControlConditions(Sums.MapSeq(entries[..n], RowOf))
  {
    var n := |entries| - 1;
    Sums.MapAppend(entries[..n], [entries[n]], RowOf);
    assert entries == entries[..n] + [entries[n]];
    assert Sums.MapSeq([entries[n]], RowOf) == [entries[n].row];
    ConditionsAppend(Sums.MapSeq(entries[..n], RowOf), entries[n].row);
  }

  lemma {:induction false} CombosBelong(entries: seq<Entry>, order: seq<AnchorKey>, context: seq<ContextRow>)
    requires AreEntries(entries, order, context) && Distinct(order)
    ensures CombosDistinct(CombosOf(entries))
    ensures forall c :: c in CombosOf(entries) ==> c.entry.row.key in order && c.entry.row.isControl
  {
    if entries != [] {
      var n := |entries| - 1;
      CombosBelong(entries[..n], order[..n], context);
      var e, combos := entries[n], CombosOf(entries[..n]);
      EntryConditions(e, order[n], Select(context, AnchorOf, order[n]));
      assert order == order[..n] + [order[n]];
      assert order[n] !in order[..n];
      var all := CombosOf(entries);
      forall i, j | 0 <= i < j < |all|
        ensures (all[i].entry.row.key, all[i].condition) != (all[j].entry.row.key, all[j].condition)
      {
        if i < |combos| { assert combos[i] in combos; }
      }
    }
  }

  // ------------------------------------------------------------- the indexer

  datatype Comparison = Comparison(
    table: seq<AnchorRow>, pairs: seq<Pair>, unmatched: nat, areaWarnings: nat, insufficient: nat)

  predicate PairLe(x: Pair, y: Pair) {
    StrLt(x.target.sample, y.target.sample) || (x.target.sample == y.target.sample && (
      StrLt(x.target.region, y.target.region) || (x.target.region == y.target.region && (
      StrLt(x.control.region, y.control.region) || (x.control.region == y.control.region &&
      ConditionLe(x.condition, y.condition))))))
  }

  predicate Insufficient(row: AnchorRow) { |row.conditions| < 2 }

  /** The accounting every index satisfies. */
  ghost predicate Accounted(c: Comparison) {
    && |c.pairs| + c.unmatched == ControlConditions(c.table)
    && (forall i, j :: 0 <= i < j < |c.pairs| ==>
        (c.pairs[i].control, c.pairs[i].condition) != (c.pairs[j].control, c.pairs[j].condition))
    && c.insufficient == |Filter(c.table, Insufficient)| <= |c.table|
  }

  lemma PairsStayDistinct(pairs: seq<Pair>, sorted: seq<Pair>)
    requires forall i, j :: 0 <= i < j < |pairs| ==>
             (pairs[i].control, pairs[i].condition) != (pairs[j].control, pairs[j].condition)
    requires multiset(sorted) == multiset(pairs)
    ensures |sorted| == |pairs|
    ensures forall i, j :: 0 <= i < j < |sorted| ==>
            (sorted[i].control, sorted[i].condition) != (sorted[j].control, sorted[j].condition)
  {
    assert |multiset(sorted)| == |multiset(pairs)|;
    DistinctMultiplicity(pairs);
    DistinctMultiplicity(sorted);
    forall i, j | 0 <= i < j < |sorted|
      ensures (sorted[i].control, sorted[i].condition) != (sorted[j].control, sorted[j].condition)
    {
      assert sorted[i] in multiset(pairs) && sorted[j] in multiset(pairs);
      var k :| 0 <= k < |pairs| && pairs[k] == sorted[i];
      var l :| 0 <= l < |pairs| && pairs[l] == sorted[j];
    }
  }

  lemma {:induction false} FilterShorter<T>(s: seq<T>, p: T -> bool)
    ensures |Filter(s, p)| <= |s|
  {
    if s != [] { FilterShorter(s[1..], p); }
  }

  /** Rows in key order, one per anchor. */
  ghost predicate IsTable(table: seq<AnchorRow>, context: seq<ContextRow>) {
    && Sorted(table, RowLe)
    && (forall row :: row in table ==>
        AnchorAccepted(row) && IsAnchorRow(row, row.key, Select(context, AnchorOf, row.key)))
    && |table| == |Keys(context, AnchorOf)|
    && forall key :: key in Keys(context, AnchorOf) ==> InTable(table, key)
  }

  lemma TableRow(entries: seq<Entry>, order: seq<AnchorKey>, context: seq<ContextRow>, i: nat)
    requires AreEntries(entries, order, context) && i < |entries|
    ensures var row := entries[i].row;
            row.key == order[i] && IsAnchorRow(row, row.key, Select(context, AnchorOf, row.key))
  {
    assert IsEntry(entries[i], order[i], Select(context, AnchorOf, order[i]));
  }

  ghost predicate InTable(table: seq<AnchorRow>, key: AnchorKey) {
    exists row :: row in table && row.key == key
  }

  lemma TableMember(entries: seq<Entry>, order: seq<AnchorKey>, context: seq<ContextRow>, row: AnchorRow)
    requires AreEntries(entries, order, context) && row in Sums.MapSeq(entries, RowOf)
    ensures IsAnchorRow(row, row.key, Select(context, AnchorOf, row.key))
    ensures exists e :: e in entries && e.row == row
  {
    var i :| 0 <= i < |entries| && Sums.MapSeq(entries, RowOf)[i] == row;
    TableRow(entries, order, context, i);
    assert entries[i] in entries;
  }

  lemma TableHas(entries: seq<Entry>, order: seq<AnchorKey>, context: seq<ContextRow>, key: AnchorKey)
    requires AreEntries(entries, order, context) && key in order
    ensures InTable(Sums.MapSeq(entries, RowOf), key)
  {
    var i :| 0 <= i < |order| && order[i] == key;
    TableRow(entries, order, context, i);
    assert Sums.MapSeq(entries, RowOf)[i] in Sums.MapSeq(entries, RowOf);
  }

  lemma TableOfEntries(entries: seq<Entry>, order: seq<AnchorKey>, context: seq<ContextRow>, table: seq<AnchorRow>)
    requires AreEntries(entries, order, context) && order == Keys(context, AnchorOf)
    requires forall e :: e in entries ==> AnchorAccepted(e.row)
    requires table == SortBy(Sums.MapSeq(entries, RowOf), RowLe)
    ensures IsTable(table, context)
    ensures forall row :: row in table ==> exists e :: e in entries && e.row == row
  {
    var rows := Sums.MapSeq(entries, RowOf);
    SortPermutes(rows, RowLe);
    SortMembers(rows, RowLe);
    forall row | row in table
      ensures AnchorAccepted(row) && IsAnchorRow(row, row.key, Select(context, AnchorOf, row.key))
      ensures exists e :: e in entries && e.row == row
    {
      TableMember(entries, order, context, row);
    }
    forall key | key in order ensures InTable(table, key) {
      TableHas(entries, order, context, key);
      var row :| row in rows && row.key == key;
      assert row in table;
    }
    TableSorted(rows);
  }

  lemma TableSorted(rows: seq<AnchorRow>)
    ensures Sorted(SortBy(rows, RowLe), RowLe)
  {
    AnchorLeIsTotalOrder();
    forall x, y, z | RowLe(x, y) && RowLe(y, z) ensures RowLe(x, z) {
      assert AnchorLe(x.key, y.key) && AnchorLe(y.key, z.key);
    }
    SortSorts(rows, RowLe);
  }

  /** The anchor map and the table agree with the entries. */
  ghost predicate AnchorsOf(anchors: Anchors, entries: seq<Entry>) {
    && (forall e :: e in entries ==> e.row.key in anchors.byKey && anchors.byKey[e.row.key] == e.row)
    && (forall key :: key in anchors.byKey ==> anchors.byKey[key].key == key && anchors.byKey[key] in anchors.table)
    && (forall row :: row in anchors.table ==> row.key in anchors.byKey && anchors.byKey[row.key] == row)
  }

  lemma {:induction false} CombosFrom(entries: seq<Entry>)
    ensures forall c :: c in CombosOf(entries) ==>
            c.entry in entries && c.entry.row.isControl && c.condition in c.entry.conditions
    ensures forall e :: e in entries && e.row.isControl && e.conditions != [] ==>
            Combo(e, e.conditions[0]) in CombosOf(entries)
  {
    if entries != [] {
      var n := |entries| - 1;
      CombosFrom(entries[..n]);
      var last := entries[n];
      assert entries == entries[..n] + [last];
      var mine := EntryCombos(last, |last.conditions|);
      if last.row.isControl && last.conditions != [] {
        assert mine[0] in mine;
        assert mine[0] in CombosOf(entries);
      }
    }
  }

  ghost predicate NamesItself(e: Entry) {
    e.row.isControl && e.reference == Some(e.row.key.region)
  }

  /** A control whose first row's reference names its own region. */
  ghost predicate SelfNaming(context: seq<ContextRow>, key: AnchorKey) {
    var rows := Select(context, AnchorOf, key);
    rows != [] && rows[0].isControl && TargetRegion(rows[0].regionParams) == Some(key.region)
  }

  ghost predicate SomeNamesItself(context: seq<ContextRow>) {
    exists key :: key in Keys(context, AnchorOf) && SelfNaming(context, key)
  }

  lemma NamesItselfInContext(entries: seq<Entry>, context: seq<ContextRow>)
    requires AreEntries(entries, Keys(context, AnchorOf), context)
    ensures (exists e :: e in entries && NamesItself(e)) <==> SomeNamesItself(context)
  {
    var order := Keys(context, AnchorOf);
    forall i | 0 <= i < |order| ensures NamesItself(entries[i]) <==> SelfNaming(context, order[i]) {
      var rows := Select(context, AnchorOf, order[i]);
      assert IsEntry(entries[i], order[i], rows) && rows[0] in rows;
    }
    if e :| e in entries && NamesItself(e) {
      var i :| 0 <= i < |entries| && entries[i] == e;
      assert order[i] in order;
    }
    if key :| key in order && SelfNaming(context, key) {
      var i :| 0 <= i < |order| && order[i] == key;
      assert entries[i] in entries;
    }
  }

  lemma SelfOutcomeNamesItself(entries: seq<Entry>, context: seq<ContextRow>, anchors: Anchors, tolerance: real)
    requires AreEntries(entries, Keys(context, AnchorOf), context) && AnchorsOf(anchors, entries)
    requires SelfReference in Outcomes(CombosOf(entries), anchors, tolerance)
    ensures exists e :: e in entries && NamesItself(e)
  {
    var combos := CombosOf(entries);
    var outcomes := Outcomes(combos, anchors, tolerance);
    var i :| 0 <= i < |outcomes| && outcomes[i] == SelfReference;
    CombosFrom(entries);
    assert combos[i] in combos;
    ComboDecides(entries, context, anchors, tolerance, combos[i]);
    assert NamesItself(combos[i].entry);
  }

  lemma SelfNamingGivesOutcome(entries: seq<Entry>, context: seq<ContextRow>, anchors: Anchors, tolerance: real, i: nat)
    requires AreEntries(entries, Keys(context, AnchorOf), context) && AnchorsOf(anchors, entries)
    requires i < |entries| && NamesItself(entries[i])
    ensures SelfReference in Outcomes(CombosOf(entries), anchors, tolerance)
  {
    var e, combos := entries[i], CombosOf(entries);
    EntryConditions(e, Keys(context, AnchorOf)[i], Select(context, AnchorOf, Keys(context, AnchorOf)[i]));
    CombosFrom(entries);
    var first := Combo(e, e.conditions[0]);
    ComboDecides(entries, context, anchors, tolerance, first);
    var j :| 0 <= j < |combos| && combos[j] == first;
    assert Outcomes(combos, anchors, tolerance)[j] == SelfReference;
  }

  /** Matching raises exactly when some control's reference names that control. */
  lemma RaisesOnSelfReference(entries: seq<Entry>, context: seq<ContextRow>, anchors: Anchors, tolerance: real)
    requires AreEntries(entries, Keys(context, AnchorOf), context) && AnchorsOf(anchors, entries)
    ensures TallyOf(CombosOf(entries), anchors, tolerance).None? <==> exists e :: e in entries && NamesItself(e)
  {
    CombinationsConserved(CombosOf(entries), anchors, tolerance);
    if TallyOf(CombosOf(entries), anchors, tolerance).None? {
      SelfOutcomeNamesItself(entries, context, anchors, tolerance);
    }
    if e :| e in entries && NamesItself(e) {
      var i :| 0 <= i < |entries| && entries[i] == e;
      SelfNamingGivesOutcome(entries, context, anchors, tolerance, i);
    }
  }

  lemma ComboDecides(entries: seq<Entry>, context: seq<ContextRow>, anchors: Anchors, tolerance: real, c: Combo)
    requires AreEntries(entries, Keys(context, AnchorOf), context) && AnchorsOf(anchors, entries)
    requires c.entry in entries && c.entry.row.isControl && c.condition in c.entry.conditions
    ensures MatchOne(c.entry, c.condition, anchors, tolerance) == SelfReference
            <==> c.entry.reference == Some(c.entry.row.key.region)
  {
    var i :| 0 <= i < |entries| && entries[i] == c.entry;
    EntryConditions(c.entry, Keys(context, AnchorOf)[i], Select(context, AnchorOf, Keys(context, AnchorOf)[i]));
    SelfReferenceExactly(c.entry, c.condition, anchors, tolerance);
  }

  /** What the anchor key constructor asks of every row. */
  predicate RowsNamed(context: seq<ContextRow>) {
    forall i :: 0 <= i < |context| ==> context[i].sample != "" && context[i].region != ""
  }

  ghost predicate GeometryAgrees(context: seq<ContextRow>) { Compatible(Sums.MapSeq(context, GeoOf), RANDOM_KIND) }

  /** The indexer raises over nothing else. */
  ghost predicate Indexable(context: seq<ContextRow>) {
    RowsNamed(context) && GeometryAgrees(context) && NoneFails(context, Keys(context, AnchorOf))
      && !SomeNamesItself(context)
  }

  /** The index of a context, from its entries. */
  ghost predicate IndexFrom(c: Comparison, context: seq<ContextRow>, tolerance: real, entries: seq<Entry>,
                            anchors: Anchors)
  {
    && AreEntries(entries, Keys(context, AnchorOf), context) && AnchorsOf(anchors, entries)
    && anchors.table == c.table && IsTable(c.table, context) && Accounted(c)
    && TallyOf(CombosOf(entries), anchors, tolerance).Some?
    && var tally := TallyOf(CombosOf(entries), anchors, tolerance).value;
       c.pairs == SortBy(tally.pairs, PairLe) && c.unmatched == tally.unmatched && c.areaWarnings == tally.warnings
  }

  ghost predicate IsIndex(c: Comparison, context: seq<ContextRow>, tolerance: real) {
    exists entries, anchors :: IndexFrom(c, context, tolerance, entries, anchors)
  }

  /** `ComparisonIndexer`: empty names, conflicting geometry, mixed flags, negative areas and self-references raise. */
  method BuildIndex(context: seq<ContextRow>, tolerance: real)
    returns (result: Result<Comparison, Failure>, ghost entries: seq<Entry>, ghost anchors: Anchors)
    ensures result.Ok? <==> Indexable(context)
    ensures result.Ok? ==> IndexFrom(result.value, context, tolerance, entries, anchors)
    ensures RowsNamed(context) ==> (result == Err(GeometryConflict) <==> !GeometryAgrees(context))
    ensures RowsNamed(context) && GeometryAgrees(context) && !NoneFails(context, Keys(context, AnchorOf)) ==>
              result.Err? && FirstFails(context, Keys(context, AnchorOf), result.error)
    ensures RowsNamed(context) && GeometryAgrees(context) && NoneFails(context, Keys(context, AnchorOf))
            && SomeNamesItself(context) ==>
              result == Err(SelfReferencingControl)
  {
    entries, anchors := [], Anchors(map[], []);
    var ok, _, _ := CheckAll(Sums.MapSeq(context, GeoOf), RANDOM_KIND);
    if !ok { return Err(GeometryConflict), [], anchors; }
    if !RowsNamed(context) { return Err(EmptyName), [], anchors; }
    var built := BuildEntries(context);
    if built.Err? {
      FirstFailsNotGeometry(context, Keys(context, AnchorOf), built.error);
      return Err(built.error), [], anchors;
    }
    KeysAreGroups(context, AnchorOf);
    var byKey := IndexByKey(built.value, Keys(context, AnchorOf));
    var rows := Sums.MapSeq(built.value, RowOf);
    var table := SortBy(rows, RowLe);
    SortMembers(rows, RowLe);
    TableOfEntries(built.value, Keys(context, AnchorOf), context, table);
    entries, anchors := built.value, Anchors(byKey, table);
    RaisesOnSelfReference(entries, context, anchors, tolerance);
    NamesItselfInContext(entries, context);
    var tally := MatchControls(built.value, Anchors(byKey, table), tolerance);
    if tally.None? { return Err(SelfReferencingControl), entries, anchors; }
    var pairs := SortBy(tally.value.pairs, PairLe);
    result := Ok(Comparison(table, pairs, tally.value.unmatched, tally.value.warnings, |Filter(table, Insufficient)|));
    IndexAccounts(built.value, context, anchors, tolerance, result.value);
  }

  /** Where the reference of a control anchor's first row points, if it is usable. */
  function ReferenceOf(context: seq<ContextRow>, key: AnchorKey): Option<string> {
    var rows := Select(context, AnchorOf, key);
    if rows == [] then None else TargetRegion(rows[0].regionParams)
  }

  /** The row a control's reference names under a condition. */
  ghost predicate Refers(context: seq<ContextRow>, control: AnchorRow, condition: ConditionKey, row: AnchorRow) {
    && ReferenceOf(context, control.key) == Some(row.key.region)
    && row.key.sample == control.key.sample && row.key.invert == control.key.invert && condition in row.conditions
  }

  /** What a pair says about its two rows. */
  ghost predicate PairOfRows(pair: Pair, context: seq<ContextRow>, table: seq<AnchorRow>, tolerance: real,
                             control: AnchorRow, target: AnchorRow)
  {
    && control in table && target in table && pair.control == control.key && pair.target == target.key
    && control != target && control.isControl
    && pair.condition in control.conditions && pair.condition in target.conditions
    && target.key.sample == control.key.sample && target.key.invert == control.key.invert
    && (pair.how == ExactReference <==> Refers(context, control, pair.condition, target))
    && (pair.how == AreaTolerance ==>
        (forall row :: row in table ==> !Refers(context, control, pair.condition, row)) && !target.isControl)
  }

  /**
    What a pair says about the areas of its rows: with both effective areas known those, otherwise
    the intended ones.
   */
  predicate PairOfAreas(pair: Pair, tolerance: real, c: Option<int>, t: Option<int>) {
    && (pair.ratio.Some? <==> c.Some? && t.Some? && t.value != 0)
    && (pair.ratio.Some? ==> Scale(pair.ratio.value, t.value) == c.value as real)
    && (Warns(pair, tolerance) <==> c.Some? && t.Some? && t.value > 0 && !AreaInBand(c.value, t.value, tolerance))
    && (pair.how == AreaTolerance ==> c.Some? && t.Some? && t.value > 0 && AreaInBand(c.value, t.value, tolerance))
  }

  lemma ComboOfPair(c: Comparison, context: seq<ContextRow>, tolerance: real, entries: seq<Entry>, anchors: Anchors,
                    pair: Pair) returns (combo: Combo)
    requires IndexFrom(c, context, tolerance, entries, anchors) && pair in c.pairs
    ensures combo in CombosOf(entries) && MatchOne(combo.entry, combo.condition, anchors, tolerance) == Paired(pair)
  {
    var combos := CombosOf(entries);
    var tally := TallyOf(combos, anchors, tolerance).value;
    CombinationsConserved(combos, anchors, tolerance);
    SortMembers(tally.pairs, PairLe);
    var outcomes := Outcomes(combos, anchors, tolerance);
    assert Paired(pair) in outcomes;
    var i :| 0 <= i < |outcomes| && outcomes[i] == Paired(pair);
    combo := combos[i];
  }

  /** A control's entry, as the table and the context show it. */
  lemma EntryInTable(c: Comparison, context: seq<ContextRow>, tolerance: real, entries: seq<Entry>, anchors: Anchors,
                     e: Entry)
    requires IndexFrom(c, context, tolerance, entries, anchors) && e in entries
    ensures e.row in c.table && anchors.byKey[e.row.key] == e.row && e.reference == ReferenceOf(context, e.row.key)
    ensures forall condition :: condition in e.conditions <==> condition in e.row.conditions
  {
    var order := Keys(context, AnchorOf);
    var i :| 0 <= i < |entries| && entries[i] == e;
    EntryConditions(e, order[i], Select(context, AnchorOf, order[i]));
  }

  /** A reference finds the row it names, and only that. */
  lemma ReferencedIff(c: Comparison, context: seq<ContextRow>, tolerance: real, entries: seq<Entry>, anchors: Anchors,
                      e: Entry, condition: ConditionKey, row: AnchorRow)
    requires IndexFrom(c, context, tolerance, entries, anchors) && e in entries
    ensures Referenced(e, condition, anchors) == Some(row) <==> row in c.table && Refers(context, e.row, condition, row)
  {
    EntryInTable(c, context, tolerance, entries, anchors, e);
    if row in c.table && Refers(context, e.row, condition, row) {
      assert row.key == AnchorKey(e.row.key.sample, e.reference.value, e.row.key.invert);
    }
  }

  /** A pair joins a control with the row its reference names or, failing that, with a target of like area. */
  lemma PairMeaning(c: Comparison, context: seq<ContextRow>, tolerance: real, entries: seq<Entry>, anchors: Anchors,
                    pair: Pair) returns (control: AnchorRow, target: AnchorRow)
    requires IndexFrom(c, context, tolerance, entries, anchors) && pair in c.pairs
    ensures PairOfRows(pair, context, c.table, tolerance, control, target)
    ensures forall ca, ta :: ComparedAreas(control, target, ca, ta) ==> PairOfAreas(pair, tolerance, ca, ta)
    ensures pair.how == AreaTolerance ==> exists k: nat ::
            IsFirstMinimiser(control, pair.condition, c.table, tolerance, k) && c.table[k] == target
  {
    var combo := ComboOfPair(c, context, tolerance, entries, anchors, pair);
    var e, condition := combo.entry, combo.condition;
    CombosFrom(entries);
    EntryInTable(c, context, tolerance, entries, anchors, e);
    control, target := e.row, PairedRow(e, condition, anchors, tolerance);
    BestIsListed(e.row, condition, anchors.table, tolerance);
    BestIsFirstMinimiser(e.row, condition, anchors.table, tolerance);
    forall row
      ensures Referenced(e, condition, anchors) == Some(row)
              <==> row in c.table && Refers(context, e.row, condition, row)
    {
      ReferencedIff(c, context, tolerance, entries, anchors, e, condition, row);
    }
    PairAreas(pair, control, target, tolerance);
  }

  /** A combination stays unmatched exactly when its reference finds nothing and no target's area lies in the band. */
  lemma UnmatchedIff(c: Comparison, context: seq<ContextRow>, tolerance: real, entries: seq<Entry>, anchors: Anchors,
                     e: Entry, condition: ConditionKey)
    requires IndexFrom(c, context, tolerance, entries, anchors) && e in entries
    ensures MatchOne(e, condition, anchors, tolerance) == Unmatched
            <==> forall row :: row in c.table ==>
                 !Refers(context, e.row, condition, row) && !EligibleTarget(e.row, condition, row, tolerance)
  {
    BestIsFirstMinimiser(e.row, condition, anchors.table, tolerance);
    forall row { ReferencedIff(c, context, tolerance, entries, anchors, e, condition, row); }
  }

  /** The row a combination is paired with. */
  function PairedRow(e: Entry, condition: ConditionKey, anchors: Anchors, tolerance: real): AnchorRow
    requires MatchOne(e, condition, anchors, tolerance).Paired?
  {
    var exact := Referenced(e, condition, anchors);
    if exact.Some? then exact.value else Best(e.row, condition, anchors.table, tolerance).value
  }

  lemma PairAreas(pair: Pair, control: AnchorRow, target: AnchorRow, tolerance: real)
    requires AnchorAccepted(target) && pair.ratio == AreaRatio(control, target)
    requires pair.how == AreaTolerance ==> exists condition :: EligibleTarget(control, condition, target, tolerance)
    ensures forall c, t :: ComparedAreas(control, target, c, t) ==> PairOfAreas(pair, tolerance, c, t)
  {
    forall c, t | ComparedAreas(control, target, c, t) ensures PairOfAreas(pair, tolerance, c, t) {
      AreaRatioMeaning(control, target, c, t);
      if pair.ratio.Some? { WithinToleranceIff(control, target, c, t, tolerance); }
    }
  }

  lemma IndexAccounts(entries: seq<Entry>, context: seq<ContextRow>, anchors: Anchors, tolerance: real, c: Comparison)
    requires AreEntries(entries, Keys(context, AnchorOf), context)
    requires TallyOf(CombosOf(entries), anchors, tolerance).Some?
    requires var tally := TallyOf(CombosOf(entries), anchors, tolerance).value;
             c.pairs == SortBy(tally.pairs, PairLe) && c.unmatched == tally.unmatched
    requires c.table == SortBy(Sums.MapSeq(entries, RowOf), RowLe) && c.insufficient == |Filter(c.table, Insufficient)|
    ensures Accounted(c)
  {
    var tally := TallyOf(CombosOf(entries), anchors, tolerance).value;
    KeysAreGroups(context, AnchorOf);
    CombosBelong(entries, Keys(context, AnchorOf), context);
    CombinationsConserved(CombosOf(entries), anchors, tolerance);
    OnePairPerCombination(CombosOf(entries), anchors, tolerance);
    CombosCount(entries, Keys(context, AnchorOf), context);
    SortPermutes(Sums.MapSeq(entries, RowOf), RowLe);
    ConditionsPermuted(Sums.MapSeq(entries, RowOf), c.table);
    SortPermutes(tally.pairs, PairLe);
    PairsStayDistinct(tally.pairs, c.pairs);
    FilterShorter(c.table, Insufficient);
  }
}
