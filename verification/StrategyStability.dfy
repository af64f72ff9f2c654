/** Agreement between operators at one anchor: `_per_anchor_strategy_rows` of `ssat/analysis/stability.py`. */
module StrategyStability {
  import opened Prelude
  import opened Ordering
  import opened Sums
  import opened Grouping
  import opened AnalysisTypes
  import opened Items
  import opened ItemMeans

  /** `_sign`. */
  function Sign(value: real): int { if value > 0.0 then 1 else if value < 0.0 then -1 else 0 }

  /** Two values on the same side of zero, or both on it. */
  predicate SameSign(x: real, y: real) { (x > 0.0 <==> y > 0.0) && (x < 0.0 <==> y < 0.0) }

  lemma SignMeaning(x: real, y: real)
    ensures Sign(x) == 1 <==> x > 0.0
    ensures Sign(x) == -1 <==> x < 0.0
    ensures Sign(x) == Sign(y) <==> SameSign(x, y)
  {
  }

  type Signs = map<string, int>

  function OpsWith(signs: Signs, sign: int): set<string> { set op | op in signs && signs[op] == sign }

  function CountSign(signs: Signs, sign: int): nat { |OpsWith(signs, sign)| }

  function Max(a: nat, b: nat): nat { if a < b then b else a }

  /** `Counter(signs.values()).most_common(1)`: how often the commonest sign occurs. */
  function TopCount(signs: Signs): nat {
    Max(CountSign(signs, 1), Max(CountSign(signs, -1), CountSign(signs, 0)))
  }

  ghost predicate AreSigns(signs: Signs) { forall op :: op in signs ==> -1 <= signs[op] <= 1 }

  ghost predicate OneSign(signs: Signs) { forall a, b :: a in signs && b in signs ==> signs[a] == signs[b] }

  lemma CountsCover(signs: Signs)
    requires AreSigns(signs)
    ensures CountSign(signs, 1) + CountSign(signs, -1) + CountSign(signs, 0) == |signs|
  {
    var p, m, z := OpsWith(signs, 1), OpsWith(signs, -1), OpsWith(signs, 0);
    assert p + m + z == signs.Keys;
    assert |p + m + z| == |p| + |m| + |z| by { assert p !! m && (p + m) !! z; }
    assert |signs.Keys| == |signs|;
  }

  lemma EveryoneHas(signs: Signs, sign: int)
    ensures CountSign(signs, sign) <= |signs|
    ensures CountSign(signs, sign) == |signs| <==> forall op :: op in signs ==> signs[op] == sign
  {
    var ops := OpsWith(signs, sign);
    assert ops <= signs.Keys && |signs.Keys| == |signs|;
    SubsetSize(ops, signs.Keys);
    if ops == signs.Keys {
      forall op | op in signs ensures signs[op] == sign { assert op in ops; }
    }
    if forall op :: op in signs ==> signs[op] == sign { assert ops == signs.Keys; }
  }

  /** The commonest sign covers every operator exactly when they share one sign. */
  lemma TopCountMeaning(signs: Signs)
    requires AreSigns(signs) && signs != map[]
    ensures 1 <= TopCount(signs) <= |signs|
    ensures TopCount(signs) == |signs| <==> OneSign(signs)
  {
    CountsCover(signs);
    EveryoneHas(signs, 1);
    EveryoneHas(signs, -1);
    EveryoneHas(signs, 0);
    var op :| op in signs;
    assert -1 <= signs[op] <= 1;
    assert |signs| > 0;
    if OneSign(signs) {
      assert forall other :: other in signs ==> signs[other] == signs[op];
      assert CountSign(signs, signs[op]) == |signs|;
    }
  }

  /** No sign occurs more often than the commonest. */
  lemma TopCountIsLargest(signs: Signs, sign: int)
    requires AreSigns(signs)
    ensures |set op | op in signs && signs[op] == sign| <= TopCount(signs)
  {
    assert OpsWith(signs, sign) == set op | op in signs && signs[op] == sign;
    if !(-1 <= sign <= 1) { assert OpsWith(signs, sign) == {}; }
  }

  lemma CommonestSign(signs: Signs) returns (sign: int)
    ensures |set op | op in signs && signs[op] == sign| == TopCount(signs)
  {
    sign := if CountSign(signs, 1) == TopCount(signs) then 1 else if CountSign(signs, -1) == TopCount(signs) then -1
      else 0;
    assert OpsWith(signs, sign) == set op | op in signs && signs[op] == sign;
  }

  /** Two operators share a sign. */
  ghost predicate TwoShare(signs: Signs) {
    exists a, b :: a in signs && b in signs && a != b && signs[a] == signs[b]
  }

  lemma TwoWith(signs: Signs, sign: int)
    requires CountSign(signs, sign) >= 2
    ensures TwoShare(signs)
  {
    var ops := OpsWith(signs, sign);
    var a :| a in ops;
    assert |ops - {a}| == |ops| - 1;
    var b :| b in ops - {a};
    assert a in signs && b in signs && a != b && signs[a] == signs[b];
  }

  /** The commonest sign occurs at least twice exactly when two operators share one. */
  lemma TopCountTwoIff(signs: Signs)
    requires AreSigns(signs)
    ensures TopCount(signs) >= 2 <==> TwoShare(signs)
  {
    if TopCount(signs) >= 2 {
      TwoWith(signs, if CountSign(signs, 1) >= 2 then 1 else if CountSign(signs, -1) >= 2 then -1 else 0);
    }
    forall a, b | a in signs && b in signs && a != b && signs[a] == signs[b] ensures TopCount(signs) >= 2 {
      SubsetSize({a, b}, OpsWith(signs, signs[a]));
      assert |{a, b}| == 2 && -1 <= signs[a] <= 1;
    }
  }

  // -------------------------------------------------------------------- the rows

  function Agreement(top: nat, n: nat): real
    requires n > 0
  {
    (top as real) / (n as real)
  }

  lemma AgreementMeaning(top: nat, n: nat)
    requires 0 < top <= n
    ensures 0.0 < Agreement(top, n) <= 1.0 && (Agreement(top, n) == 1.0 <==> top == n)
  {
    var r := Agreement(top, n);
    assert r * (n as real) == top as real;
    DivideAtMost(top as real, n as real, 1.0);
  }

  /** `{op: value}` filled in table order. */
  function ValueMap(ops: seq<OpKey>, value: OpKey -> real): map<string, real> {
    if ops == [] then map[]
    else
      var n := |ops| - 1;
      ValueMap(ops[..n], value)[ops[n].op := value(ops[n])]
  }

  function SignsOf(values: map<string, real>): Signs { map op | op in values :: Sign(values[op]) }

  function StrategyRowFrom(am: AnchorMetric, values: map<string, real>): StrategyRow {
    var signs := SignsOf(values);
    StrategyRow(am.anchor, am.metric, signs, values,
                if |signs| == 0 then 0.0 else Agreement(TopCount(signs), |signs|), |signs|)
  }

  function WantedOp(items: seq<Item>, names: Option<set<string>>): OpKey -> bool {
    (key: OpKey) => Requested(names, key.metric) && !IsControlAnchor(items)(key.anchor)
  }

  function WantedOps(items: seq<Item>, names: Option<set<string>>): seq<OpKey> {
    Filter(OpKeys(items), WantedOp(items, names))
  }

  function StrategyRowOf(items: seq<Item>, names: Option<set<string>>): AnchorMetric -> StrategyRow {
    am => StrategyRowFrom(am, ValueMap(Select(WantedOps(items, names), PairOf, am), OpValue(items)))
  }

  function Fields(am: AnchorMetric): seq<string> {
    [am.anchor.sample, am.anchor.region, if am.anchor.invert then "1" else "0", am.metric]
  }

  function KeyOfRow(row: StrategyRow): AnchorMetric { AnchorMetric(row.anchor, row.metric) }

  predicate AnchorMetricLe(x: AnchorMetric, y: AnchorMetric) { LexLe(Fields(x), Fields(y)) }

  predicate StrategyLe(x: StrategyRow, y: StrategyRow) { AnchorMetricLe(KeyOfRow(x), KeyOfRow(y)) }

  function StrategyKeys(items: seq<Item>, names: Option<set<string>>): seq<AnchorMetric> {
    Keys(WantedOps(items, names), PairOf)
  }

  function StrategyRows(items: seq<Item>, names: Option<set<string>>): seq<StrategyRow> {
    SortBy(MapSeq(StrategyKeys(items, names), StrategyRowOf(items, names)), StrategyLe)
  }

  // --------------------------------------------------------------------- methods

  method FillValues(ops: seq<OpKey>, means: map<OpKey, real>, ghost mean: OpKey -> Option<real>,
                    ghost value: OpKey -> real)
    returns (values: map<string, real>)
    requires Represents(means, mean) && forall k :: value(k) == ValueOr0(mean(k))
    ensures values == ValueMap(ops, value)
  {
    values := map[];
    for i := 0 to |ops|
      invariant values == ValueMap(ops[..i], value)
    {
      assert ops[..i + 1][..i] == ops[..i];
      assert Get(means, ops[i]) == mean(ops[i]);
      values := values[ops[i].op := ValueOr0(Get(means, ops[i]))];
    }
    assert ops[..|ops|] == ops;
  }

  method KeepWanted(order: seq<OpKey>, controls: map<AnchorKey, bool>, names: Option<set<string>>,
                    ghost items: seq<Item>)
    returns (wanted: seq<OpKey>)
    requires forall a: AnchorKey {:trigger Flagged(controls, a)} :: Flagged(controls, a) == IsControlAnchor(items)(a)
    ensures wanted == Filter(order, WantedOp(items, names))
  {
    wanted := [];
    for i := 0 to |order|
      invariant wanted == Filter(order[..i], WantedOp(items, names))
    {
      assert order[..i + 1] == order[..i] + [order[i]];
      FilterAppend(order[..i], [order[i]], WantedOp(items, names));
      if Requested(names, order[i].metric) && !Flagged(controls, order[i].anchor) { wanted := wanted + [order[i]]; }
    }
    assert order[..|order|] == order;
  }

  /** The row constructor's checks. */
  ghost predicate StrategyRowAccepted(row: StrategyRow) {
    && row.metric != "" && row.signs.Keys == row.values.Keys && row.nStrategies == |row.signs| && AreSigns(row.signs)
    && 0.0 <= row.agreement <= 1.0
  }

  predicate MetricsNamed(keys: seq<AnchorMetric>) { forall i :: 0 <= i < |keys| ==> keys[i].metric != "" }

  /** `_per_anchor_strategy_rows`: raises exactly over an unnamed anchor or metric. */
  method PerAnchorStrategyRows(items: seq<Item>, names: Option<set<string>>)
    returns (result: Result<seq<StrategyRow>, Failure>)
    ensures result.Ok? <==> AnchorsNamed(items) && MetricsNamed(StrategyKeys(items, names))
    ensures result.Ok? ==> result.value == StrategyRows(items, names)
  {
    if !AnchorsNamed(items) { return Err(EmptyName); }
    var order, means := OpLevelMeans(items);
    var controls := ControlAnchors(items);
    var wanted := KeepWanted(order, controls, names, items);
    var keys, grouped := GroupRows(wanted, PairOf);
    forall k | k in keys
      ensures StrategyRowOf(items, names)(k) == StrategyRowFrom(k, ValueMap(grouped[k], OpValue(items)))
    {
      assert grouped[k] == Select(wanted, PairOf, k);
    }
    var rows := RowsInOrder(keys, grouped, means, OpMean(items), OpValue(items), StrategyRowOf(items, names));
    if rows.Err? { return Err(rows.error); }
    result := Ok(SortBy(rows.value, StrategyLe));
  }

  method RowsInOrder(keys: seq<AnchorMetric>, grouped: map<AnchorMetric, seq<OpKey>>, means: map<OpKey, real>,
                     ghost mean: OpKey -> Option<real>, ghost value: OpKey -> real,
                     ghost rowOf: AnchorMetric -> StrategyRow)
    returns (result: Result<seq<StrategyRow>, Failure>)
    requires Represents(means, mean) && forall k :: value(k) == ValueOr0(mean(k))
    requires forall k :: k in keys ==> k in grouped && rowOf(k) == StrategyRowFrom(k, ValueMap(grouped[k], value))
    ensures result.Ok? <==> MetricsNamed(keys)
    ensures result.Ok? ==> result.value == MapSeq(keys, rowOf)
  {
    var rows := [];
    for i := 0 to |keys|
      invariant |rows| == i && forall j :: 0 <= j < i ==> keys[j].metric != "" && rows[j] == rowOf(keys[j])
    {
      assert keys[i] in keys;
      if keys[i].metric == "" { return Err(EmptyName); }
      var values := FillValues(grouped[keys[i]], means, mean, value);
      rows := rows + [StrategyRowFrom(keys[i], values)];
    }
    result := Ok(rows);
  }

  // ---------------------------------------------------------------- what rows mean

  /** The value an operator contributes at an anchor, when it has one. */
  function ValueAt(items: seq<Item>, am: AnchorMetric, op: string): Option<real> {
    OpMean(items)(OpKey(am.anchor, op, am.metric))
  }

  function In(values: map<string, real>, op: string): Option<real> { if op in values then Some(values[op]) else None }

  lemma {:induction false} ValueMapMeaning(ops: seq<OpKey>, value: OpKey -> real, am: AnchorMetric, op: string)
    requires forall i :: 0 <= i < |ops| ==> PairOf(ops[i]) == am
    ensures In(ValueMap(ops, value), op)
            == if OpKey(am.anchor, op, am.metric) in ops then Some(value(OpKey(am.anchor, op, am.metric))) else None
  {
    if ops != [] {
      var n := |ops| - 1;
      var key := OpKey(am.anchor, op, am.metric);
      ValueMapMeaning(ops[..n], value, am, op);
      assert ops == ops[..n] + [ops[n]];
      assert PairOf(ops[n]) == am;
      assert ops[n] == OpKey(am.anchor, ops[n].op, am.metric);
    }
  }

  predicate Eligible(items: seq<Item>, names: Option<set<string>>, am: AnchorMetric) {
    Requested(names, am.metric) && !IsControlAnchor(items)(am.anchor)
  }

  /** A row lists exactly the operators with a two-stage mean at its anchor, with that mean. */
  lemma RowValues(items: seq<Item>, names: Option<set<string>>, am: AnchorMetric, op: string)
    requires Eligible(items, names, am)
    ensures In(StrategyRowOf(items, names)(am).values, op) == ValueAt(items, am, op)
  {
    var wanted := WantedOps(items, names);
    var ops := Select(wanted, PairOf, am);
    var key := OpKey(am.anchor, op, am.metric);
    SelectMembers(wanted, PairOf, am);
    FilterMembers(OpKeys(items), WantedOp(items, names));
    MeansExist(items);
    forall i | 0 <= i < |ops| ensures PairOf(ops[i]) == am { assert ops[i] in ops; }
    ValueMapMeaning(ops, OpValue(items), am, op);
    assert PairOf(key) == am;
    assert key in ops <==> OpMean(items)(key).Some?;
  }

  lemma StrategyKeyMeaning(items: seq<Item>, names: Option<set<string>>, am: AnchorMetric)
    ensures am in StrategyKeys(items, names)
            <==> Eligible(items, names, am) && exists op :: ValueAt(items, am, op).Some?
  {
    var wanted := WantedOps(items, names);
    KeysAreGroups(wanted, PairOf);
    FilterMembers(OpKeys(items), WantedOp(items, names));
    MeansExist(items);
    if am in StrategyKeys(items, names) {
      var key :| key in wanted && PairOf(key) == am;
      assert key == OpKey(am.anchor, key.op, am.metric);
      assert ValueAt(items, am, key.op).Some?;
    }
    if Eligible(items, names, am) {
      forall op | ValueAt(items, am, op).Some? ensures am in StrategyKeys(items, names) {
        var key := OpKey(am.anchor, op, am.metric);
        assert key in wanted && PairOf(key) == am;
      }
    }
  }

  /** When a metric name stops the stage: a target anchor has a two-stage mean on the metric without a name. */
  lemma MetricsNamedIff(items: seq<Item>, names: Option<set<string>>)
    ensures MetricsNamed(StrategyKeys(items, names))
            <==> forall anchor, op :: Requested(names, "") && !IsControlAnchor(items)(anchor) ==>
                 OpMean(items)(OpKey(anchor, op, "")).None?
  {
    var keys := StrategyKeys(items, names);
    forall anchor, op | Requested(names, "") && !IsControlAnchor(items)(anchor) && MetricsNamed(keys)
      ensures OpMean(items)(OpKey(anchor, op, "")).None?
    {
      var am := AnchorMetric(anchor, "");
      StrategyKeyMeaning(items, names, am);
      assert ValueAt(items, am, op) == OpMean(items)(OpKey(anchor, op, ""));
      assert am !in keys;
    }
    forall i | 0 <= i < |keys| && keys[i].metric == ""
      ensures exists anchor, op :: Requested(names, "") && !IsControlAnchor(items)(anchor)
                                   && OpMean(items)(OpKey(anchor, op, "")).Some?
    {
      assert keys[i] in keys;
      StrategyKeyMeaning(items, names, keys[i]);
      var op :| ValueAt(items, keys[i], op).Some?;
      assert OpMean(items)(OpKey(keys[i].anchor, op, "")).Some?;
    }
  }

  lemma StrategyHasKey(items: seq<Item>, names: Option<set<string>>, am: AnchorMetric)
    ensures KeyOfRow(StrategyRowOf(items, names)(am)) == am
  {
  }

  /** There is one row for every anchor and metric with a value, and no other. */
  lemma StrategyRowsMeaning(items: seq<Item>, names: Option<set<string>>, am: AnchorMetric, row: StrategyRow)
    ensures row in StrategyRows(items, names) && row.anchor == am.anchor && row.metric == am.metric
            <==> am in StrategyKeys(items, names) && row == StrategyRowOf(items, names)(am)
  {
    var keys := StrategyKeys(items, names);
    var rows := MapSeq(keys, StrategyRowOf(items, names));
    SortMembers(rows, StrategyLe);
    StrategyHasKey(items, names, am);
    if am in keys && row == StrategyRowOf(items, names)(am) {
      var i :| 0 <= i < |keys| && keys[i] == am;
      assert rows[i] in rows;
    }
    if row in rows && row.anchor == am.anchor && row.metric == am.metric {
      var i :| 0 <= i < |rows| && rows[i] == row;
      StrategyHasKey(items, names, keys[i]);
      assert keys[i] == am && keys[i] in keys;
    }
  }

  /** Rows come in the order of sample, region, polarity and metric. */
  lemma StrategyRowsOrdered(items: seq<Item>, names: Option<set<string>>, i: nat, j: nat)
    requires i < j < |StrategyRows(items, names)|
    ensures var x, y := StrategyRows(items, names)[i], StrategyRows(items, names)[j];
            LexLe([x.anchor.sample, x.anchor.region, if x.anchor.invert then "1" else "0", x.metric],
                  [y.anchor.sample, y.anchor.region, if y.anchor.invert then "1" else "0", y.metric])
  {
    var rows := MapSeq(StrategyKeys(items, names), StrategyRowOf(items, names));
    StrategyLeIsPreorder();
    SortSorts(rows, StrategyLe);
    assert StrategyLe(SortBy(rows, StrategyLe)[i], SortBy(rows, StrategyLe)[j]);
  }

  lemma StrategyLeIsPreorder()
    ensures TotalPreorder(StrategyLe)
  {
    forall x, y ensures StrategyLe(x, y) || StrategyLe(y, x) { LexLeTotal(Fields(KeyOfRow(x)), Fields(KeyOfRow(y))); }
    forall x, y, z | StrategyLe(x, y) && StrategyLe(y, z) ensures StrategyLe(x, z) {
      LexLeTransitive(Fields(KeyOfRow(x)), Fields(KeyOfRow(y)), Fields(KeyOfRow(z)));
    }
  }

  lemma SignsMeaning(values: map<string, real>)
    ensures AreSigns(SignsOf(values)) && SignsOf(values).Keys == values.Keys && |SignsOf(values)| == |values|
  {
    assert SignsOf(values).Keys == values.Keys;
    assert |SignsOf(values)| == |SignsOf(values).Keys| && |values| == |values.Keys|;
  }

  /** A row's fields: the signs of its values, their number, and how large a part has the commonest sign. */
  lemma StrategyRowNumbers(am: AnchorMetric, values: map<string, real>)
    requires values != map[]
    ensures var row := StrategyRowFrom(am, values);
            && row.anchor == am.anchor && row.metric == am.metric && row.values == values
            && row.signs.Keys == values.Keys && row.nStrategies == |values|
            && (forall op :: op in values ==> (row.signs[op] == 1 <==> values[op] > 0.0)
                                              && (row.signs[op] == -1 <==> values[op] < 0.0)
                                              && (row.signs[op] == 0 <==> values[op] == 0.0))
            && Repeat(row.agreement, |values|) == TopCount(row.signs) as real
  {
    SignsMeaning(values);
    var op :| op in values;
    assert |values| > 0 by { assert op in values.Keys; }
    RepeatIsProduct(Agreement(TopCount(SignsOf(values)), |values|), |values|);
  }

  /** The row constructor rejects only an empty metric name, and full agreement means exactly one shared sign. */
  lemma StrategyRowMeaning(am: AnchorMetric, values: map<string, real>)
    requires values != map[]
    ensures var row := StrategyRowFrom(am, values);
            && (StrategyRowAccepted(row) <==> am.metric != "")
            && AreSigns(row.signs) && row.signs != map[]
            && (row.agreement == 1.0 <==> OneSign(row.signs))
  {
    var signs := SignsOf(values);
    SignsMeaning(values);
    var op :| op in values;
    assert op in signs;
    TopCountMeaning(signs);
    AgreementMeaning(TopCount(signs), |signs|);
  }
}
