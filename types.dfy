/**
 * The records the dashboard passes between its parts (src/types.ts), plus the
 * structured form in which the model gives formatted numbers.
 */
module Types {
  import opened Wrappers

  /** `CostItem.category`. */
  datatype Category = Housing | Tech | Travel | Food | Utilities | Leisure

  /** A priced everyday item used as a comparison anchor (`name` is the source's `label`, a keyword in Dafny). */
  datatype CostItem = CostItem(id: string, name: string, usd: real, category: Option<Category>)

  /** `amount` expressed as a multiple of one item's price. */
  datatype ValueComparison = ValueComparison(item: CostItem, multiple: real, isNiceInteger: bool)

  /** The value-context filter chips ('oneOff' | 'monthly' | 'annual'). */
  datatype FilterType = OneOff | Monthly | Annual

  /**
   * One venue's funding record for one asset. `nextFundingTime` is the
   * instant of the next settlement in epoch milliseconds; an absent `stale`
   * reads as false.
   */
  datatype FundingTicker = FundingTicker(
    id: string,
    exchange: string,
    base: string,
    quote: string,
    symbolRaw: string,
    fundingPeriodHours: real,
    lastFundingRate: Option<real>,
    aprSigned: Option<real>,
    nextFundingTime: Option<int>,
    stale: bool)

  const HourMs: int := 3600000

  /** `0 < next - now < 1h`: the ticker's next settlement falls within the coming hour. */
  predicate DueWithinHour(t: FundingTicker, now: int) {
    t.nextFundingTime.Some? && 0 < t.nextFundingTime.value - now < HourMs
  }

  /** `t.aprSigned || 0`: a missing APR counts as zero. */
  function AprOrZero(t: FundingTicker): real {
    t.aprSigned.GetOr(0.0)
  }

  /**
   * A formatted number `prefix + value.toFixed(decimals) + suffix`; the digits
   * that `toFixed` would print are not modelled, the decisions around them are.
   */
  datatype NumberText = NumberText(prefix: string, value: real, decimals: nat, suffix: string)

  /** Either the placeholder '—' or a formatted number. */
  datatype Display = Dash | Shown(text: NumberText)

  function Abs(x: real): (r: real)
    ensures r >= 0.0 && (r == x || r == -x)
  {
    if x < 0.0 then -x else x
  }

  /** `Math.round`: halves round up, towards positive infinity. */
  function JsRound(x: real): (n: int)
    ensures x - 0.5 < n as real <= x + 0.5
  {
    (x + 0.5).Floor
  }
}
