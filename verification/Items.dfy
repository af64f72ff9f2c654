/** The item table every statistic is computed from. */
module Items {

  /** One (item, metric) row; `region` is its region key, `degradation` is meaningless unless `available`. */
  datatype Item = Item(
    sample: string, region: string, invert: bool, op: string, params: string, metric: string,
    isControl: bool, available: bool, degradation: real)

  function Degradation(item: Item): real { item.degradation }

  predicate IsAvailable(item: Item) { item.available }

  predicate IsTarget(item: Item) { !item.isControl }

  /** Available and not a control: the population of region statistics. */
  predicate IsUsable(item: Item) { item.available && !item.isControl }

  datatype SampleKey = SampleKey(sample: string, region: string, metric: string)
  datatype RegionMetric = RegionMetric(region: string, metric: string)

  function SampleKeyOf(item: Item): SampleKey { SampleKey(item.sample, item.region, item.metric) }

  function RegionPart(key: SampleKey): RegionMetric { RegionMetric(key.region, key.metric) }

  /** Every degradation multiplied by `c`. */
  function ScaledItem(item: Item, c: real): Item { item.(degradation := c * item.degradation) }
}
