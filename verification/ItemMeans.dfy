/** The means `control.py` and `stability.py` start from: per condition, and per operator in two stages. */
module ItemMeans {
  import opened Prelude
  import opened Sums
  import opened Grouping
  import opened AnalysisTypes
  import opened Items
  import opened Aggregate
  import opened Ordering

  datatype CellKey = CellKey(anchor: AnchorKey, condition: ConditionKey, metric: string)
  datatype OpKey = OpKey(anchor: AnchorKey, op: string, metric: string)
  datatype AnchorMetric = AnchorMetric(anchor: AnchorKey, metric: string)

  function AnchorOf(item: Item): AnchorKey { AnchorKey(item.sample, item.region, item.invert) }

  function CellOf(item: Item): CellKey { CellKey(AnchorOf(item), ConditionKey(item.op, item.params), item.metric) }

  function OpOf(cell: CellKey): OpKey { OpKey(cell.anchor, cell.condition.op, cell.metric) }

  function PairOf(key: OpKey): AnchorMetric { AnchorMetric(key.anchor, key.metric) }

  /** The repeats of one condition. */
  function CellValues(items: seq<Item>, key: CellKey): seq<real> {
    MapSeq(Select(Filter(items, IsAvailable), CellOf, key), Degradation)
  }

  /** The keys of `anchor_means`, in table order. */
  function CellKeys(items: seq<Item>): seq<CellKey> { Keys(Filter(items, IsAvailable), CellOf) }

  /** `anchor_means.get(key)`. */
  function CellMean(items: seq<Item>): CellKey -> Option<real> {
    key => MeanOrNone(CellValues(items, key))
  }

  function ValueOr0(value: Option<real>): real { if value.Some? then value.value else 0.0 }

  function CellValue(items: seq<Item>): CellKey -> real {
    key => ValueOr0(CellMean(items)(key))
  }

  function OpKeys(items: seq<Item>): seq<OpKey> { Keys(CellKeys(items), OpOf) }

  /** Stage two: an equal-weight mean over the conditions that share an operator. */
  function OpMean(items: seq<Item>): OpKey -> Option<real> {
    key => MeanOrNone(MapSeq(Select(CellKeys(items), OpOf, key), CellValue(items)))
  }

  function OpValue(items: seq<Item>): OpKey -> real {
    key => ValueOr0(OpMean(items)(key))
  }

  /** `is_control_by_anchor.get(anchor, False)`: the flag of the anchor's first row. */
  function IsControlAnchor(items: seq<Item>): AnchorKey -> bool {
    (anchor: AnchorKey) => var rows := Select(items, AnchorOf, anchor); rows != [] && rows[0].isControl
  }

  predicate Requested(names: Option<set<string>>, metric: string) { names.None? || metric in names.value }

  /** What the anchor key constructor asks of every item. */
  predicate AnchorNamed(item: Item) { item.sample != "" && item.region != "" }

  /** What the condition key constructor asks of every available item. */
  predicate ConditionNamed(item: Item) { item.available ==> item.op != "" && item.params != "" }

  predicate AnchorsNamed(items: seq<Item>) { forall i :: 0 <= i < |items| ==> AnchorNamed(items[i]) }

  predicate KeysNamed(items: seq<Item>) {
    AnchorsNamed(items) && forall i :: 0 <= i < |items| ==> ConditionNamed(items[i])
  }

  /** The names the keys need: a sample and a region for every item, an operator and parameters for an available one. */
  lemma KeysNamedMeaning(items: seq<Item>)
    ensures AnchorsNamed(items) <==> forall item :: item in items ==> item.sample != "" && item.region != ""
    ensures KeysNamed(items)
            <==> forall item :: item in items ==>
                 item.sample != "" && item.region != "" && (item.available ==> item.op != "" && item.params != "")
  {
    forall i | 0 <= i < |items| ensures items[i] in items {}
  }

  lemma MeansExist(items: seq<Item>)
    ensures forall k :: k in CellKeys(items) <==> CellMean(items)(k).Some?
    ensures forall k :: k in OpKeys(items) <==> OpMean(items)(k).Some?
  {
    KeysHaveRows(Filter(items, IsAvailable), CellOf);
    KeysHaveRows(CellKeys(items), OpOf);
  }

  // ------------------------------------------------------------- what they average

  /** The available items of one anchor, condition and metric. */
  function InCell(key: CellKey): Item -> bool {
    (item: Item) =>
      && item.available && item.metric == key.metric
      && item.sample == key.anchor.sample && item.region == key.anchor.region && item.invert == key.anchor.invert
      && item.op == key.condition.op && item.params == key.condition.params
  }

  lemma {:induction false} CellIsFilter(items: seq<Item>, key: CellKey)
    ensures Select(Filter(items, IsAvailable), CellOf, key) == Filter(items, InCell(key))
  {
    if items != [] { CellIsFilter(items[1..], key); }
  }

  /** A condition's mean averages its available items. */
  lemma CellMeanMeaning(items: seq<Item>, key: CellKey)
    ensures Averages(CellMean(items)(key), MapSeq(Filter(items, InCell(key)), Degradation))
  {
    CellIsFilter(items, key);
    MeanAverages(CellValues(items, key));
  }

  /** The conditions of one anchor, operator and metric that have a mean, each once, and those means. */
  ghost predicate AreOpCells(items: seq<Item>, key: OpKey, cells: seq<CellKey>, values: seq<real>) {
    && Distinct(cells) && |values| == |cells|
    && (forall c :: c in cells <==> c.anchor == key.anchor && c.condition.op == key.op && c.metric == key.metric
                                    && CellMean(items)(c).Some?)
    && (forall i :: 0 <= i < |cells| ==> CellMean(items)(cells[i]) == Some(values[i]))
  }

  /** An operator's mean averages the means of its conditions. */
  lemma OpMeanMeaning(items: seq<Item>, key: OpKey) returns (cells: seq<CellKey>, values: seq<real>)
    ensures AreOpCells(items, key, cells, values) && Averages(OpMean(items)(key), values)
  {
    cells := Select(CellKeys(items), OpOf, key);
    values := MapSeq(cells, CellValue(items));
    MeansExist(items);
    KeysAreGroups(Filter(items, IsAvailable), CellOf);
    SelectDistinct(CellKeys(items), OpOf, key);
    SelectMembers(CellKeys(items), OpOf, key);
    forall c ensures c in cells <==> c.anchor == key.anchor && c.condition.op == key.op && c.metric == key.metric
                                     && CellMean(items)(c).Some? {
      assert c in CellKeys(items) <==> CellMean(items)(c).Some?;
    }
    forall i | 0 <= i < |cells| ensures CellMean(items)(cells[i]) == Some(values[i]) { assert cells[i] in cells; }
    MeanAverages(values);
  }

  predicate AtAnchor(item: Item, anchor: AnchorKey) {
    item.sample == anchor.sample && item.region == anchor.region && item.invert == anchor.invert
  }

  ghost predicate FirstIsControl(items: seq<Item>, anchor: AnchorKey, i: int) {
    && 0 <= i < |items| && AtAnchor(items[i], anchor) && items[i].isControl
    && forall j :: 0 <= j < i ==> !AtAnchor(items[j], anchor)
  }

  lemma FirstMoves(items: seq<Item>, anchor: AnchorKey)
    requires items != [] && !AtAnchor(items[0], anchor)
    ensures (exists i :: FirstIsControl(items, anchor, i)) <==> (exists i :: FirstIsControl(items[1..], anchor, i))
  {
    forall i | FirstIsControl(items, anchor, i) ensures FirstIsControl(items[1..], anchor, i - 1) {}
    forall i | FirstIsControl(items[1..], anchor, i) ensures FirstIsControl(items, anchor, i + 1) {
      forall j | 0 <= j < i + 1 ensures !AtAnchor(items[j], anchor) { assert j > 0 ==> items[j] == items[1..][j - 1]; }
    }
  }

  /** An anchor counts as a control when the first of its items, available or not, is one. */
  lemma {:induction false} ControlAnchorMeaning(items: seq<Item>, anchor: AnchorKey)
    ensures IsControlAnchor(items)(anchor) <==> exists i :: FirstIsControl(items, anchor, i)
  {
    if items != [] {
      ControlAnchorMeaning(items[1..], anchor);
      if AtAnchor(items[0], anchor) {
        assert Select(items, AnchorOf, anchor)[0] == items[0];
        assert items[0].isControl ==> FirstIsControl(items, anchor, 0);
      } else {
        assert Select(items, AnchorOf, anchor) == Select(items[1..], AnchorOf, anchor);
        FirstMoves(items, anchor);
      }
    }
  }

  /** A finite dict of means read with `.get`. */
  function Get<K>(means: map<K, real>, k: K): Option<real> { if k in means then Some(means[k]) else None }

  ghost predicate Represents<K(!new)>(means: map<K, real>, mean: K -> Option<real>) {
    forall k {:trigger Get(means, k)} :: Get(means, k) == mean(k)
  }

  function GroupMean<T, K(==)>(rows: seq<T>, key: T -> K, value: T -> real): K -> Option<real> {
    k => MeanOrNone(MapSeq(Select(rows, key, k), value))
  }

  /** `rows.groupby(key, sort=False)[value].mean()`. */
  method GroupMeans<T(!new), K(==, !new)>(rows: seq<T>, key: T -> K, value: T -> real)
    returns (order: seq<K>, means: map<K, real>)
    ensures order == Keys(rows, key) && Represents(means, GroupMean(rows, key, value))
  {
    var groups;
    order, groups := GroupRows(rows, key);
    KeysHaveRows(rows, key);
    means := MeansOf(order, groups, value);
    forall k ensures Get(means, k) == GroupMean(rows, key, value)(k) {
      if k in order { assert groups[k] == Select(rows, key, k); }
    }
  }

  method MeansOf<T, K(==)>(order: seq<K>, groups: map<K, seq<T>>, value: T -> real) returns (means: map<K, real>)
    requires forall k :: k in order ==> k in groups && groups[k] != []
    ensures forall k :: k in means <==> k in order
    ensures forall k :: k in means ==> MapSeq(groups[k], value) != [] && means[k] == Mean(MapSeq(groups[k], value))
  {
    means := map[];
    for i := 0 to |order|
      invariant forall k :: k in means <==> k in order[..i]
      invariant forall k :: k in means ==> k in order && means[k] == Mean(MapSeq(groups[k], value))
    {
      assert order[i] in order;
      means := means[order[i] := Mean(MapSeq(groups[order[i]], value))];
    }
    assert order[..|order|] == order;
  }

  /** `_anchor_level_means`, without the control flags. */
  method AnchorLevelMeans(items: seq<Item>) returns (order: seq<CellKey>, means: map<CellKey, real>)
    ensures order == CellKeys(items) && Represents(means, CellMean(items))
  {
    order, means := GroupMeans(Filter(items, IsAvailable), CellOf, Degradation);
    forall k ensures Get(means, k) == CellMean(items)(k) {
      assert Get(means, k) == GroupMean(Filter(items, IsAvailable), CellOf, Degradation)(k);
    }
  }

  function Reader<K>(means: map<K, real>): K -> real { k => ValueOr0(Get(means, k)) }

  lemma SameReading(cells: seq<CellKey>, items: seq<Item>, means: map<CellKey, real>)
    requires Represents(means, CellMean(items))
    ensures MapSeq(cells, Reader(means)) == MapSeq(cells, CellValue(items))
  {
    forall k ensures Reader(means)(k) == CellValue(items)(k) { assert Get(means, k) == CellMean(items)(k); }
  }

  /** `_op_level_anchor_means`: means of the condition means. */
  method OpLevelMeans(items: seq<Item>) returns (order: seq<OpKey>, means: map<OpKey, real>)
    ensures order == OpKeys(items) && Represents(means, OpMean(items))
  {
    var cells, cellMeans := AnchorLevelMeans(items);
    order, means := GroupMeans(cells, OpOf, Reader(cellMeans));
    forall k ensures Get(means, k) == OpMean(items)(k) {
      assert Get(means, k) == GroupMean(cells, OpOf, Reader(cellMeans))(k);
      SameReading(Select(cells, OpOf, k), items, cellMeans);
    }
  }

  /** `groupby(...)["is_control"].first()` as a dict. */
  method ControlAnchors(items: seq<Item>) returns (controls: map<AnchorKey, bool>)
    ensures forall a: AnchorKey {:trigger Flagged(controls, a)} :: Flagged(controls, a) == IsControlAnchor(items)(a)
  {
    var order: seq<AnchorKey>, groups: map<AnchorKey, seq<Item>> := GroupRows(items, AnchorOf);
    KeysHaveRows(items, AnchorOf);
    controls := map a: AnchorKey | a in order :: groups[a][0].isControl;
  }

  function Flagged(controls: map<AnchorKey, bool>, a: AnchorKey): bool { a in controls && controls[a] }
}
