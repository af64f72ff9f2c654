/** Pairing control anchors with targets: `_match_controls` of `ssat/analysis/indexer.py`. */
module ControlMatching {
  import opened Prelude
  import opened AnalysisTypes
  import RegionKeys

  datatype AnchorRow = AnchorRow(
    key: AnchorKey, intended: Option<int>, effective: Option<int>, isControl: bool, conditions: seq<ConditionKey>)

  /** The row constructor rejects negative areas. */
  predicate AnchorAccepted(row: AnchorRow) {
    (row.intended.Some? ==> row.intended.value >= 0) && (row.effective.Some? ==> row.effective.value >= 0)
  }

  // ------------------------------------------------------------- area matching

  /** Control area over target area: effective areas when both are known, else intended ones. */
  function AreaRatio(control: AnchorRow, target: AnchorRow): Option<real> {
    var both := control.effective.Some? && target.effective.Some?;
    var c := if both then control.effective else control.intended;
    var t := if both then target.effective else target.intended;
    if c.None? || t.None? || t.value == 0 then None else Some((c.value as real) / (t.value as real))
  }

  function Deviation(control: AnchorRow, target: AnchorRow): real
    requires AreaRatio(control, target).Some?
  {
    var d := AreaRatio(control, target).value - 1.0;
    if d < 0.0 then -d else d
  }

  predicate WithinTolerance(ratio: real, tolerance: real) {
    1.0 - tolerance <= ratio <= 1.0 + tolerance
  }

  /** A target in tolerance, sharing the control's sample, polarity and condition. */
  predicate EligibleTarget(control: AnchorRow, condition: ConditionKey, candidate: AnchorRow, tolerance: real) {
    && !candidate.isControl
    && candidate.key.sample == control.key.sample && candidate.key.invert == control.key.invert
    && condition in candidate.conditions
    && AreaRatio(control, candidate).Some? && Deviation(control, candidate) <= tolerance
  }

  /** The two areas a pair is judged by. */
  predicate ComparedAreas(control: AnchorRow, target: AnchorRow, c: Option<int>, t: Option<int>) {
    if control.effective.Some? && target.effective.Some? then c == control.effective && t == target.effective
    else c == control.intended && t == target.intended
  }

  /** The control's area lies in the tolerance band around the target's. */
  predicate AreaInBand(c: int, t: int, tolerance: real) {
    Scale(1.0 - tolerance, t) <= c as real <= Scale(1.0 + tolerance, t)
  }

  function Scale(x: real, area: int): real { x * area as real }

  lemma QuotientUndone(c: int, t: int)
    requires t != 0
    ensures Scale((c as real) / (t as real), t) == c as real
  {
  }

  lemma ScaleOrder(x: real, y: real, t: int)
    requires t > 0
    ensures Scale(x, t) <= Scale(y, t) <==> x <= y
  {
    if x <= y { assert (y - x) * t as real >= 0.0; } else { assert (x - y) * t as real > 0.0; }
  }

  /** There is a ratio exactly when both areas are known and the target has one, and it undoes to the control's area. */
  lemma AreaRatioMeaning(control: AnchorRow, target: AnchorRow, c: Option<int>, t: Option<int>)
    requires ComparedAreas(control, target, c, t)
    ensures AreaRatio(control, target).Some? <==> c.Some? && t.Some? && t.value != 0
    ensures AreaRatio(control, target).Some? ==> Scale(AreaRatio(control, target).value, t.value) == c.value as real
  {
    if c.Some? && t.Some? && t.value != 0 { QuotientUndone(c.value, t.value); }
  }

  /** A ratio in tolerance is an area in the tolerance band. */
  lemma WithinToleranceIff(control: AnchorRow, target: AnchorRow, c: Option<int>, t: Option<int>, tolerance: real)
    requires ComparedAreas(control, target, c, t) && AnchorAccepted(target) && AreaRatio(control, target).Some?
    ensures c.Some? && t.Some? && t.value > 0
    ensures WithinTolerance(AreaRatio(control, target).value, tolerance) <==> AreaInBand(c.value, t.value, tolerance)
    ensures Deviation(control, target) <= tolerance <==> AreaInBand(c.value, t.value, tolerance)
  {
    var q := AreaRatio(control, target).value;
    AreaRatioMeaning(control, target, c, t);
    ScaleOrder(1.0 - tolerance, q, t.value);
    ScaleOrder(q, 1.0 + tolerance, t.value);
  }

  /** The deviation is the distance of the two areas, measured in target areas. */
  lemma DeviationMeaning(control: AnchorRow, target: AnchorRow, c: Option<int>, t: Option<int>)
    requires ComparedAreas(control, target, c, t) && AnchorAccepted(target) && AreaRatio(control, target).Some?
    ensures c.Some? && t.Some? && t.value > 0
    ensures Scale(Deviation(control, target), t.value)
            == (if c.value < t.value then t.value - c.value else c.value - t.value) as real
  {
    var q, n := AreaRatio(control, target).value, t.value;
    AreaRatioMeaning(control, target, c, t);
    ScaleOrder(1.0, q, n);
    assert Scale(q - 1.0, n) == Scale(q, n) - n as real;
    assert Scale(1.0 - q, n) == n as real - Scale(q, n);
    assert Scale(1.0, n) == n as real;
  }

  /**
    Eligible: another anchor of the sample and polarity that was measured under the condition, with
    an area in the band.
   */
  lemma EligibleIff(control: AnchorRow, condition: ConditionKey, candidate: AnchorRow, tolerance: real,
                    c: Option<int>, t: Option<int>)
    requires ComparedAreas(control, candidate, c, t) && AnchorAccepted(candidate)
    ensures EligibleTarget(control, condition, candidate, tolerance)
            <==> !candidate.isControl
                 && candidate.key.sample == control.key.sample && candidate.key.invert == control.key.invert
                 && condition in candidate.conditions
                 && c.Some? && t.Some? && t.value > 0 && AreaInBand(c.value, t.value, tolerance)
  {
    AreaRatioMeaning(control, candidate, c, t);
    if AreaRatio(control, candidate).Some? { WithinToleranceIff(control, candidate, c, t, tolerance); }
  }

  /** The running best of the fallback search. */
  function Best(control: AnchorRow, condition: ConditionKey, table: seq<AnchorRow>,
                tolerance: real): (best: Option<AnchorRow>)
    ensures best.Some? ==> EligibleTarget(control, condition, best.value, tolerance)
  {
    if table == [] then None
    else
      var best, last := Best(control, condition, table[..|table| - 1], tolerance), table[|table| - 1];
      if EligibleTarget(control, condition, last, tolerance)
         && (best.None? || Deviation(control, last) < Deviation(control, best.value))
      then Some(last) else best
  }

  /** `_area_tolerance_fallback`. */
  method AreaToleranceFallback(control: AnchorRow, condition: ConditionKey, table: seq<AnchorRow>, tolerance: real)
    returns (best: Option<AnchorRow>)
    ensures best == Best(control, condition, table, tolerance)
  {
    best := None;
    for i := 0 to |table|
      invariant best == Best(control, condition, table[..i], tolerance)
    {
      var candidate := table[i];
      assert table[..i + 1][..i] == table[..i];
      if candidate.isControl { continue; }
      if candidate.key.sample != control.key.sample { continue; }
      if candidate.key.invert != control.key.invert { continue; }
      if condition !in candidate.conditions { continue; }
      if AreaRatio(control, candidate).None? { continue; }
      var deviation := Deviation(control, candidate);
      if deviation > tolerance { continue; }
      if best.None? || deviation < Deviation(control, best.value) { best := Some(candidate); }
    }
    assert table[..|table|] == table;
  }

  ghost predicate IsFirstMinimiser(control: AnchorRow, condition: ConditionKey, table: seq<AnchorRow>, tolerance: real,
                                   k: nat)
  {
    && k < |table| && EligibleTarget(control, condition, table[k], tolerance)
    && forall j :: 0 <= j < |table| && EligibleTarget(control, condition, table[j], tolerance) ==>
         if j < k then Deviation(control, table[j]) > Deviation(control, table[k])
         else Deviation(control, table[j]) >= Deviation(control, table[k])
  }

  /** The fallback answers with the first closest eligible target, and with nothing exactly when there is none. */
  lemma {:induction false} BestIsFirstMinimiser(control: AnchorRow, condition: ConditionKey, table: seq<AnchorRow>,
                                                tolerance: real)
    ensures var best := Best(control, condition, table, tolerance);
            && (best.None? <==> forall c :: c in table ==> !EligibleTarget(control, condition, c, tolerance))
            && (best.Some? ==> exists k: nat ::
                IsFirstMinimiser(control, condition, table, tolerance, k) && table[k] == best.value)
  {
    if table != [] {
      var n := |table| - 1;
      var init, last := table[..n], table[n];
      BestIsFirstMinimiser(control, condition, init, tolerance);
      assert table == init + [last];
      var best, before := Best(control, condition, table, tolerance), Best(control, condition, init, tolerance);
      assert last in table;
      if best == before {
        if best.Some? {
          var k: nat :| IsFirstMinimiser(control, condition, init, tolerance, k) && init[k] == best.value;
          assert IsFirstMinimiser(control, condition, table, tolerance, k) && table[k] == best.value;
        }
      } else {
        if before.Some? {
          var k: nat :| IsFirstMinimiser(control, condition, init, tolerance, k) && init[k] == before.value;
        }
        assert IsFirstMinimiser(control, condition, table, tolerance, n);
      }
    }
  }

  lemma {:induction false} BestIsListed(control: AnchorRow, condition: ConditionKey, table: seq<AnchorRow>,
                                        tolerance: real)
    ensures var best := Best(control, condition, table, tolerance); best.Some? ==> best.value in table
  {
    if table != [] { BestIsListed(control, condition, table[..|table| - 1], tolerance); }
  }

  // ---------------------------------------------------------------- references

  /** What `json.loads` can give for a control's `region_params_json`. */
  datatype Json = JString(s: string) | JObject(fields: map<string, Json>) | JOther

  /** `_parse_target_region_recipe`: the embedded target's region key, if usable; `None` stands for unparsable text. */
  function TargetRegion(params: Option<Json>): Option<string> {
    if params.None? || !params.value.JObject? || "target_region" !in params.value.fields then None
    else
      var target := params.value.fields["target_region"];
      if !target.JObject? || "region_id" !in target.fields || "region_instance_id" !in target.fields then None
      else
        var id, instance := target.fields["region_id"], target.fields["region_instance_id"];
        if id.JString? && id.s != "" && instance.JString?
          && instance.s != "" then Some(RegionKeys.RegionKey(id.s, instance.s))
        else None
  }

  ghost predicate NamesRegion(params: Json, id: string, instance: string) {
    && params.JObject? && "target_region" in params.fields
    && var target := params.fields["target_region"];
       target.JObject? && "region_id" in target.fields && "region_instance_id" in target.fields
       && target.fields["region_id"] == JString(id) && target.fields["region_instance_id"] == JString(instance)
  }

  /** A reference is usable exactly when both identifiers are non-empty strings, and then it is the key they make. */
  lemma TargetRegionMeaning(params: Option<Json>, key: string)
    ensures TargetRegion(params) == Some(key)
            <==> params.Some? && exists id, instance ::
                 NamesRegion(params.value, id, instance) && id != "" && instance != "" && key == id + "::" + instance
  {
    if TargetRegion(params) == Some(key) {
      var target := params.value.fields["target_region"];
      assert NamesRegion(params.value, target.fields["region_id"].s, target.fields["region_instance_id"].s);
    }
  }

  // ------------------------------------------------------------------- matching

  datatype MatchMethod = ExactReference | AreaTolerance

  datatype Pair = Pair(target: AnchorKey, control: AnchorKey, condition: ConditionKey, how: MatchMethod,
                       ratio: Option<real>)

  datatype Outcome = Paired(pair: Pair) | Unmatched | SelfReference

  /** One anchor with its parsed reference and its conditions in order of first occurrence. */
  datatype Entry = Entry(row: AnchorRow, reference: Option<string>, conditions: seq<ConditionKey>)

  datatype Anchors = Anchors(byKey: map<AnchorKey, AnchorRow>, table: seq<AnchorRow>)

  /** What the search is done against: all anchors by key, the sorted table, and the tolerance. */
  function Referenced(e: Entry, condition: ConditionKey, anchors: Anchors): Option<AnchorRow> {
    if e.reference.None? then None
    else
      var key := AnchorKey(e.row.key.sample, e.reference.value, e.row.key.invert);
      if key in anchors.byKey && condition in anchors.byKey[key].conditions then Some(anchors.byKey[key]) else None
  }

  /** One control anchor under one condition; pairing an anchor with itself makes the row constructor raise. */
  function MatchOne(e: Entry, condition: ConditionKey, anchors: Anchors, tolerance: real): Outcome {
    var exact := Referenced(e, condition, anchors);
    var target := if exact.Some? then exact else Best(e.row, condition, anchors.table, tolerance);
    if target.None? then Unmatched
    else if target.value.key == e.row.key then SelfReference
    else Paired(Pair(target.value.key, e.row.key, condition,
                     if exact.Some? then ExactReference else AreaTolerance, AreaRatio(e.row, target.value)))
  }

  predicate Warns(pair: Pair, tolerance: real) {
    pair.ratio.Some? && !WithinTolerance(pair.ratio.value, tolerance)
  }

  /** Area-mismatch warnings only ever come from exact references. */
  lemma FallbackNeverWarns(e: Entry, condition: ConditionKey, anchors: Anchors, tolerance: real)
    requires MatchOne(e, condition, anchors, tolerance).Paired?
    ensures var pair := MatchOne(e, condition, anchors, tolerance).pair;
            Warns(pair, tolerance) ==> pair.how == ExactReference
  {
  }

  /** Matching raises exactly for a control whose usable reference names the control itself. */
  lemma SelfReferenceExactly(e: Entry, condition: ConditionKey, anchors: Anchors, tolerance: real)
    requires e.row.isControl && condition in e.row.conditions
    requires e.row.key in anchors.byKey && anchors.byKey[e.row.key] == e.row
    requires forall key :: key in anchors.byKey ==> anchors.byKey[key].key == key
    requires forall row :: row in anchors.table ==> row.key in anchors.byKey && anchors.byKey[row.key] == row
    ensures MatchOne(e, condition, anchors, tolerance) == SelfReference <==> e.reference == Some(e.row.key.region)
  {
    BestIsListed(e.row, condition, anchors.table, tolerance);
  }

  /** One (control anchor, condition) combination. */
  datatype Combo = Combo(entry: Entry, condition: ConditionKey)

  function EntryCombos(e: Entry, n: nat): (combos: seq<Combo>)
    requires n <= |e.conditions|
    ensures |combos| == n && forall j :: 0 <= j < n ==> combos[j] == Combo(e, e.conditions[j])
  {
    if n == 0 then [] else EntryCombos(e, n - 1) + [Combo(e, e.conditions[n - 1])]
  }

  /** Every condition of every control anchor, in the order the loops visit them. */
  function CombosOf(entries: seq<Entry>): seq<Combo> {
    if entries == [] then []
    else
      var last := entries[|entries| - 1];
      CombosOf(entries[..|entries| - 1]) + (if last.row.isControl then EntryCombos(last, |last.conditions|) else [])
  }

  /** Pairs in the order found, the unmatched count, and the warning count. */
  datatype Tally = Tally(pairs: seq<Pair>, unmatched: nat, warnings: nat)

  function Count(t: Tally, outcome: Outcome, tolerance: real): Option<Tally> {
    match outcome
    case SelfReference => None
    case Unmatched => Some(t.(unmatched := t.unmatched + 1))
    case Paired(pair) =>
      Some(t.(pairs := t.pairs + [pair], warnings := if Warns(pair, tolerance) then t.warnings + 1 else t.warnings))
  }

  function TallyOf(combos: seq<Combo>, anchors: Anchors, tolerance: real): Option<Tally> {
    if combos == [] then Some(Tally([], 0, 0))
    else
      var before, last := TallyOf(combos[..|combos| - 1], anchors, tolerance), combos[|combos| - 1];
      if before.None? then None
      else Count(before.value, MatchOne(last.entry, last.condition, anchors, tolerance), tolerance)
  }

  lemma {:induction false} RaisedStaysRaised(combos: seq<Combo>, more: seq<Combo>, anchors: Anchors, tolerance: real)
    requires TallyOf(combos, anchors, tolerance).None?
    ensures TallyOf(combos + more, anchors, tolerance).None?
  {
    if more == [] {
      assert combos + more == combos;
    } else {
      assert (combos + more)[..|combos + more| - 1] == combos + more[..|more| - 1];
      RaisedStaysRaised(combos, more[..|more| - 1], anchors, tolerance);
    }
  }

  lemma AppendAssociates<T>(a: seq<T>, b: seq<T>, c: seq<T>)
    ensures (a + b) + c == a + (b + c)
  {
  }

  lemma CombosSplit(entries: seq<Entry>, i: nat, n: nat) returns (rest: seq<Combo>)
    requires i < |entries| && entries[i].row.isControl && n <= |entries[i].conditions|
    ensures CombosOf(entries) == CombosOf(entries[..i]) + EntryCombos(entries[i], n) + rest
    decreases |entries|
  {
    var m := |entries| - 1;
    var e := entries[m];
    if i == m {
      rest := EntryCombos(e, |e.conditions|)[n..];
      assert EntryCombos(e, |e.conditions|) == EntryCombos(e, n) + rest;
      assert CombosOf(entries) == CombosOf(entries[..m]) + EntryCombos(e, |e.conditions|);
      AppendAssociates(CombosOf(entries[..m]), EntryCombos(e, n), rest);
    } else {
      assert entries[..m][..i] == entries[..i];
      var inner := CombosSplit(entries[..m], i, n);
      var last := if e.row.isControl then EntryCombos(e, |e.conditions|) else [];
      rest := inner + last;
      assert CombosOf(entries) == CombosOf(entries[..m]) + last;
      AppendAssociates(CombosOf(entries[..i]) + EntryCombos(entries[i], n), inner, last);
    }
  }

  /** One turn of the inner loop: exact reference first, then the area fallback. */
  method MatchCondition(e: Entry, condition: ConditionKey, anchors: Anchors, tolerance: real) returns (outcome: Outcome)
    ensures outcome == MatchOne(e, condition, anchors, tolerance)
  {
    var target := Referenced(e, condition, anchors);
    var how := ExactReference;
    if target.None? {
      target := AreaToleranceFallback(e.row, condition, anchors.table, tolerance);
      how := AreaTolerance;
    }
    if target.None? { return Unmatched; }
    if target.value.key == e.row.key { return SelfReference; }
    outcome := Paired(Pair(target.value.key, e.row.key, condition, how, AreaRatio(e.row, target.value)));
  }

  /** The loop over one control anchor's conditions. */
  method MatchAnchor(e: Entry, anchors: Anchors, tolerance: real, before: Tally, ghost combos: seq<Combo>)
    returns (result: Option<Tally>, ghost tried: nat)
    requires TallyOf(combos, anchors, tolerance) == Some(before)
    ensures tried <= |e.conditions| && (result.Some? ==> tried == |e.conditions|)
    ensures result == TallyOf(combos + EntryCombos(e, tried), anchors, tolerance)
  {
    var t := before;
    assert combos + EntryCombos(e, 0) == combos;
    for j := 0 to |e.conditions|
      invariant TallyOf(combos + EntryCombos(e, j), anchors, tolerance) == Some(t)
    {
      var outcome := MatchCondition(e, e.conditions[j], anchors, tolerance);
      ghost var more := combos + EntryCombos(e, j + 1);
      assert more[..|more| - 1] == combos + EntryCombos(e, j);
      var counted := Count(t, outcome, tolerance);
      if counted.None? { return None, j + 1; }
      t := counted.value;
    }
    return Some(t), |e.conditions|;
  }

  /** `_match_controls`, before its final sort; `None` when a row constructor raises. */
  method MatchControls(entries: seq<Entry>, anchors: Anchors, tolerance: real) returns (result: Option<Tally>)
    ensures result == TallyOf(CombosOf(entries), anchors, tolerance)
  {
    var t := Tally([], 0, 0);
    for i := 0 to |entries|
      invariant TallyOf(CombosOf(entries[..i]), anchors, tolerance) == Some(t)
    {
      assert entries[..i + 1][..i] == entries[..i];
      if !entries[i].row.isControl {
        assert CombosOf(entries[..i]) + [] == CombosOf(entries[..i]);
        continue;
      }
      ghost var tried;
      var next;
      next, tried := MatchAnchor(entries[i], anchors, tolerance, t, CombosOf(entries[..i]));
      if next.None? {
        ghost var rest := CombosSplit(entries, i, tried);
        RaisedStaysRaised(CombosOf(entries[..i]) + EntryCombos(entries[i], tried), rest, anchors, tolerance);
        return None;
      }
      t := next.value;
    }
    assert entries[..|entries|] == entries;
    result := Some(t);
  }

  // ------------------------------------------------------------ what the tally means

  function Outcomes(combos: seq<Combo>, anchors: Anchors, tolerance: real): (outcomes: seq<Outcome>)
    ensures |outcomes| == |combos|
    ensures forall i :: 0 <= i < |combos| ==>
            outcomes[i] == MatchOne(combos[i].entry, combos[i].condition, anchors, tolerance)
  {
    if combos == [] then []
    else Outcomes(combos[..|combos| - 1], anchors, tolerance)
         + [MatchOne(combos[|combos| - 1].entry, combos[|combos| - 1].condition, anchors, tolerance)]
  }

  function WarningPairs(pairs: seq<Pair>, tolerance: real): (warned: seq<Pair>)
    ensures forall pair :: pair in warned ==> pair in pairs && Warns(pair, tolerance)
  {
    if pairs == [] then []
    else
      var last := pairs[|pairs| - 1];
      WarningPairs(pairs[..|pairs| - 1], tolerance) + (if Warns(last, tolerance) then [last] else [])
  }

  /** Every combination is paired or counted as unmatched, and nothing else is. */
  lemma {:induction false} CombinationsConserved(combos: seq<Combo>, anchors: Anchors, tolerance: real)
    ensures var t := TallyOf(combos, anchors, tolerance);
            var outcomes := Outcomes(combos, anchors, tolerance);
            && (t.None? <==> SelfReference in outcomes)
            && (t.Some? ==>
                && |t.value.pairs| + t.value.unmatched == |combos|
                && t.value.warnings == |WarningPairs(t.value.pairs, tolerance)|
                && (forall pair :: pair in t.value.pairs <==> Paired(pair) in outcomes))
  {
    if combos != [] {
      var init, last := combos[..|combos| - 1], combos[|combos| - 1];
      CombinationsConserved(init, anchors, tolerance);
      var before := TallyOf(init, anchors, tolerance);
      var outcome := MatchOne(last.entry, last.condition, anchors, tolerance);
      var outcomes := Outcomes(combos, anchors, tolerance);
      assert outcomes == Outcomes(init, anchors, tolerance) + [outcome];
      if before.Some? && outcome.Paired? {
        var pairs := before.value.pairs + [outcome.pair];
        assert pairs[..|pairs| - 1] == before.value.pairs;
      }
    }
  }

  ghost predicate CombosDistinct(combos: seq<Combo>) {
    forall i, j :: 0 <= i < j < |combos| ==>
      (combos[i].entry.row.key, combos[i].condition) != (combos[j].entry.row.key, combos[j].condition)
  }

  /** At most one pair per control anchor and condition. */
  lemma {:induction false} OnePairPerCombination(combos: seq<Combo>, anchors: Anchors, tolerance: real)
    requires CombosDistinct(combos) && TallyOf(combos, anchors, tolerance).Some?
    ensures var pairs := TallyOf(combos, anchors, tolerance).value.pairs;
            && (forall i, j :: 0 <= i < j < |pairs| ==>
                (pairs[i].control, pairs[i].condition) != (pairs[j].control, pairs[j].condition))
            && (forall pair :: pair in pairs ==> Tried(combos, pair.control, pair.condition))
  {
    if combos != [] {
      var init, last := combos[..|combos| - 1], combos[|combos| - 1];
      OnePairPerCombination(init, anchors, tolerance);
      assert last in combos;
      var before := TallyOf(init, anchors, tolerance).value;
      forall pair | pair in before.pairs
        ensures Tried(combos, pair.control, pair.condition)
        ensures (pair.control, pair.condition) != (last.entry.row.key, last.condition)
      {
        var c :| c in init && c.entry.row.key == pair.control && c.condition == pair.condition;
        assert c in combos;
      }
    }
  }

  ghost predicate Tried(combos: seq<Combo>, control: AnchorKey, condition: ConditionKey) {
    exists c :: c in combos && c.entry.row.key == control && c.condition == condition
  }
}
