/** Row and key types of the analysis package (`ssat/analysis/types.py`). */
module AnalysisTypes {
  import opened Prelude

  datatype AnchorKey = AnchorKey(sample: string, region: string, invert: bool)
  datatype ConditionKey = ConditionKey(op: string, params: string)

  datatype Flag = Yes | No | Unavailable
  datatype Grade = High | Moderate | Low | Unreliable

  datatype StrategyRow = StrategyRow(
    anchor: AnchorKey, metric: string,
    signs: map<string, int>, values: map<string, real>,
    agreement: real, nStrategies: nat)

  datatype RankCorrelationRow = RankCorrelationRow(
    opA: string, opB: string, spearman: Option<real>, nRegions: nat,
    spearmanExclTop: Option<real>, scope: string)

  /** Why a stage of the analysis raises. */
  datatype Failure =
    | NoMetricRows | EmptyName | RowRejected | DivisionByZero | BadResampling | UnknownOperator(op: string)
    | GeometryConflict | MixedControlFlags | NegativeArea | SelfReferencingControl

  predicate CorrelationOrNone(value: Option<real>) {
    value.Some? ==> -1.0 <= value.value <= 1.0
  }

  /** What the constructor of a rank correlation row checks. */
  predicate RankRowAccepted(row: RankCorrelationRow) {
    && row.opA != "" && row.opB != "" && row.scope != "" && row.opA != row.opB
    && CorrelationOrNone(row.spearman) && CorrelationOrNone(row.spearmanExclTop)
  }

  ghost predicate AllRanked(rows: seq<RankCorrelationRow>) {
    forall k :: 0 <= k < |rows| ==> RankRowAccepted(rows[k])
  }
}
