/**
 * APR arithmetic, number-format decisions and the value-comparison list
 * (src/lib/math.ts).
 */
module FundingMath {
  import opened Wrappers
  import opened Types
  import opened Lists

  /** Hours in the 365-day year used for annualisation (24 * 365). */
  const HoursPerYear: real := 8760.0

  /**
   * `calculateAPR`: simple (non-compounded) annualisation of a per-period
   * funding rate. The source has no guard against a zero period.
   */
  function CalculateAPR(fundingRate: real, fundingPeriodHours: real): (apr: real)
    requires fundingPeriodHours != 0.0
    ensures apr * fundingPeriodHours == fundingRate * HoursPerYear
  {
    fundingRate * ((24.0 * 365.0) / fundingPeriodHours)
  }

  /** The APR is linear in the rate: it keeps the rate's sign and scale. */
  lemma AprLinear(r: real, s: real, c: real, h: real)
    requires h != 0.0
    ensures CalculateAPR(c * r + s, h) == c * CalculateAPR(r, h) + CalculateAPR(s, h)
    ensures CalculateAPR(-r, h) == -CalculateAPR(r, h)
    ensures CalculateAPR(0.0, h) == 0.0
    ensures CalculateAPR(r, h) == r / h * HoursPerYear
  {
  }

  /** One basis point per 8-hour period is 10.95% a year. */
  lemma AprOneBasisPointEightHours()
    ensures CalculateAPR(0.0001, 8.0) == 0.1095
  {
  }

  /**
   * `formatAPR`: '+' in front exactly when the APR is not negative (a negative
   * number brings its own '-'), the APR in percent with two decimals, then '%'.
   */
  function FormatAPR(apr: real): (t: NumberText)
    ensures t.prefix == "+" <==> apr >= 0.0
    ensures t.prefix == "" <==> t.value < 0.0
    ensures t.value == apr * 100.0 && t.decimals == 2 && t.suffix == "%"
  {
    NumberText(if apr >= 0.0 then "+" else "", apr * 100.0, 2, "%")
  }

  /** The distance from `x` to the integer `Math.round` picks. */
  function RoundingGap(x: real): real {
    Abs(x - JsRound(x) as real)
  }

  /** The fractional part `x - floor(x)`, in [0, 1). */
  function Frac(x: real): (f: real)
    ensures 0.0 <= f < 1.0
  {
    x - x.Floor as real
  }

  /** `isNiceInteger`: |m| lies within 0.15 of the integer it rounds to. */
  function IsNiceInteger(multiple: real): (b: bool)
    ensures b <==> Frac(Abs(multiple)) < 0.15 || Frac(Abs(multiple)) > 0.85
  {
    RoundingGapFrac(Abs(multiple));
    RoundingGap(Abs(multiple)) < 0.15
  }

  /** Being within 0.15 of the rounded value means the fractional part is near 0 or 1. */
  lemma RoundingGapFrac(x: real)
    ensures RoundingGap(x) < 0.15 <==> Frac(x) < 0.15 || Frac(x) > 0.85
  {
    var f := Frac(x);
    if f < 0.5 {
      assert JsRound(x) == x.Floor;
    } else {
      assert JsRound(x) == x.Floor + 1;
    }
  }

  /** Negating a value maps a nonzero fractional part f to 1 - f. */
  lemma FracNeg(x: real)
    ensures Frac(-x) == 0.0 <==> Frac(x) == 0.0
    ensures Frac(x) != 0.0 ==> Frac(-x) == 1.0 - Frac(x)
  {
    if Frac(x) == 0.0 {
      assert (-x).Floor == -x.Floor;
    } else {
      assert (-x).Floor == -x.Floor - 1;
    }
  }

  /**
   * The badge test `|m - Math.round(m)| < 0.15` (applied to the signed
   * multiple, as the value-context view does) agrees with `isNiceInteger`
   * (applied to |m|) for every real m, although `Math.round` is not symmetric
   * around zero.
   */
  lemma SignedNiceFlagAgrees(m: real)
    ensures (RoundingGap(m) < 0.15) == IsNiceInteger(m)
    ensures IsNiceInteger(-m) == IsNiceInteger(m)
  {
    RoundingGapFrac(m);
    RoundingGapFrac(-m);
    FracNeg(m);
    RoundingGapFrac(Abs(m));
  }

  /**
   * `formatMultiple`: a '~' badge exactly when the multiple is a nice integer,
   * '-' exactly for negative multiples, then |m| with 0 decimals (rounded) from
   * 10 up, 1 decimal in [2, 10) and 2 below 2, then '×'.
   */
  function FormatMultiple(multiple: real): (t: NumberText)
    ensures (|t.prefix| > 0 && t.prefix[0] == '~') <==> IsNiceInteger(multiple)
    ensures '-' in t.prefix <==> multiple < 0.0
    ensures t.decimals == (if Abs(multiple) >= 10.0 then 0 else if Abs(multiple) >= 2.0 then 1 else 2)
    ensures t.value >= 0.0 && Abs(t.value - Abs(multiple)) <= 0.5
    ensures t.decimals != 0 ==> t.value == Abs(multiple)
    ensures t.suffix == "×"
  {
    var abs := Abs(multiple);
    var value := if abs >= 10.0 then JsRound(abs) as real else abs;
    var decimals := if abs >= 10.0 then 0 else if abs >= 2.0 then 1 else 2;
    var sign := if multiple >= 0.0 then "" else "-";
    var badge := if RoundingGap(abs) < 0.15 then "~" else "";
    NumberText(badge + sign, value, decimals, "×")
  }

  // ---------------------------------------------------------------------
  // Value comparisons
  // ---------------------------------------------------------------------

  /** Sort order of the comparison list. */
  datatype SortMode = Amount | Priority | Edited

  /** Housing, food and utilities: the "essentials" of the priority order and of the 'monthly' filter. */
  predicate IsEssential(item: CostItem) {
    item.category == Some(Housing) || item.category == Some(Food) || item.category == Some(Utilities)
  }

  /** The filter chips as `computeComparisons` reads them. */
  predicate MatchesComparisonFilters(filters: seq<FilterType>, item: CostItem) {
    (OneOff in filters && item.category == Some(Tech))
    || (Monthly in filters && IsEssential(item))
    || (Annual in filters && item.category == Some(Leisure))
  }

  /** The items `computeComparisons` keeps, in input order. */
  function ComparedItems(items: seq<CostItem>, filters: seq<FilterType>): (kept: seq<CostItem>)
    ensures forall i :: 0 <= i < |kept| ==> kept[i].usd > 0.0
    ensures forall item :: item in kept <==>
      item in items && item.usd > 0.0 && (|filters| > 0 ==> MatchesComparisonFilters(filters, item))
  {
    var priced := Filter(items, (item: CostItem) => item.usd > 0.0);
    if |filters| > 0 then Filter(priced, (item: CostItem) => MatchesComparisonFilters(filters, item))
    else priced
  }

  function Compare(amount: real, item: CostItem): (c: ValueComparison)
    requires item.usd != 0.0
  {
    ValueComparison(item, amount / item.usd, IsNiceInteger(amount / item.usd))
  }

  /** Larger |multiple| first. */
  function MagnitudeKey(c: ValueComparison): Key {
    Key(-Abs(c.multiple), 0.0, "")
  }

  /** Essentials first, then larger |multiple| first. */
  function PriorityKey(c: ValueComparison): Key {
    Key(if IsEssential(c.item) then 0.0 else 1.0, -Abs(c.multiple), "")
  }

  /** `items.map(item => ({ item, multiple: amount / item.usd, isNiceInteger: ... }))`. */
  function CompareAll(amount: real, kept: seq<CostItem>): (r: seq<ValueComparison>)
    requires forall i :: 0 <= i < |kept| ==> kept[i].usd > 0.0
    ensures |r| == |kept|
    ensures forall k :: 0 <= k < |kept| ==> r[k] == Compare(amount, kept[k])
  {
    seq(|kept|, k requires 0 <= k < |kept| => Compare(amount, kept[k]))
  }

  /** `computeComparisons`. */
  function ComputeComparisons(amount: real, items: seq<CostItem>, sortMode: SortMode, filters: seq<FilterType>): (r: seq<ValueComparison>)
    ensures amount == 0.0 ==> r == []
    ensures amount != 0.0 ==> multiset(r) == multiset(CompareAll(amount, ComparedItems(items, filters)))
  {
    if amount == 0.0 then []
    else
      var comparisons := CompareAll(amount, ComparedItems(items, filters));
      match sortMode
      case Priority => SortByKey(comparisons, PriorityKey)
      case _ => SortByKey(comparisons, MagnitudeKey)
  }

  /**
   * What `computeComparisons` returns: nothing for a zero amount; otherwise one
   * comparison for each positively priced item that matches an active filter
   * (every such item when no filter is active), with multiple = amount / usd
   * and the nice-integer flag of that multiple.
   */
  lemma ComparisonsContents(amount: real, items: seq<CostItem>, sortMode: SortMode, filters: seq<FilterType>)
    ensures amount == 0.0 ==> ComputeComparisons(amount, items, sortMode, filters) == []
    ensures amount != 0.0 ==>
      |ComputeComparisons(amount, items, sortMode, filters)| == |ComparedItems(items, filters)|
    ensures forall c :: c in ComputeComparisons(amount, items, sortMode, filters) ==>
      && c.item in items && c.item.usd > 0.0
      && (|filters| > 0 ==> MatchesComparisonFilters(filters, c.item))
      && c.multiple == amount / c.item.usd
      && c.isNiceInteger == IsNiceInteger(c.multiple)
    ensures forall item :: (amount != 0.0 && item in items && item.usd > 0.0
      && (|filters| == 0 || MatchesComparisonFilters(filters, item))) ==>
      Compare(amount, item) in ComputeComparisons(amount, items, sortMode, filters)
  {
    if amount != 0.0 {
      forall c | c in ComputeComparisons(amount, items, sortMode, filters)
        ensures c.item in ComparedItems(items, filters) && c == Compare(amount, c.item)
      {
        ComparisonFromKept(amount, items, sortMode, filters, c);
      }
      forall item | item in items && item.usd > 0.0 && (|filters| == 0 || MatchesComparisonFilters(filters, item))
        ensures Compare(amount, item) in ComputeComparisons(amount, items, sortMode, filters)
      {
        KeptCompared(amount, items, sortMode, filters, item);
      }
    }
  }

  /** Each comparison in the result is the comparison of a kept item. */
  lemma ComparisonFromKept(amount: real, items: seq<CostItem>, sortMode: SortMode, filters: seq<FilterType>, c: ValueComparison)
    requires amount != 0.0 && c in ComputeComparisons(amount, items, sortMode, filters)
    ensures c.item in ComparedItems(items, filters) && c == Compare(amount, c.item)
  {
    var kept := ComparedItems(items, filters);
    var comparisons := CompareAll(amount, kept);
    assert multiset(ComputeComparisons(amount, items, sortMode, filters)) == multiset(comparisons);
    assert c in multiset(comparisons);
    var k :| 0 <= k < |comparisons| && comparisons[k] == c;
  }

  /** Each kept item has its comparison in the result. */
  lemma KeptCompared(amount: real, items: seq<CostItem>, sortMode: SortMode, filters: seq<FilterType>, item: CostItem)
    requires amount != 0.0 && item in ComparedItems(items, filters)
    ensures Compare(amount, item) in ComputeComparisons(amount, items, sortMode, filters)
  {
    var kept := ComparedItems(items, filters);
    var comparisons := CompareAll(amount, kept);
    var k :| 0 <= k < |kept| && kept[k] == item;
    assert comparisons[k] == Compare(amount, item);
    assert multiset(ComputeComparisons(amount, items, sortMode, filters)) == multiset(comparisons);
    assert Compare(amount, item) in multiset(comparisons);
  }

  /**
   * The order of `computeComparisons`: by |multiple| descending; in 'priority'
   * mode every essential (housing, food, utilities) comes before every other
   * item, and |multiple| decreases within each group.
   */
  lemma ComparisonsOrder(amount: real, items: seq<CostItem>, sortMode: SortMode, filters: seq<FilterType>, i: int, j: int)
    requires 0 <= i < j < |ComputeComparisons(amount, items, sortMode, filters)|
    ensures var r := ComputeComparisons(amount, items, sortMode, filters);
      if sortMode == Priority then
        (IsEssential(r[j].item) ==> IsEssential(r[i].item))
        && (IsEssential(r[i].item) == IsEssential(r[j].item) ==> Abs(r[i].multiple) >= Abs(r[j].multiple))
      else Abs(r[i].multiple) >= Abs(r[j].multiple)
  {
    var r := ComputeComparisons(amount, items, sortMode, filters);
    var comparisons := CompareAll(amount, ComparedItems(items, filters));
    if sortMode == Priority {
      SortByKeySorted(comparisons, PriorityKey);
      assert KeyLeq(PriorityKey(r[i]), PriorityKey(r[j]));
    } else {
      SortByKeySorted(comparisons, MagnitudeKey);
      assert KeyLeq(MagnitudeKey(r[i]), MagnitudeKey(r[j]));
    }
  }

  // ---------------------------------------------------------------------
  // Time
  // ---------------------------------------------------------------------

  const MsPerHour: int := 3600000
  const MsPerMinute: int := 60000

  /** JavaScript's `%`: the remainder takes the sign of the dividend. */
  function JsRem(a: int, b: int): (r: int)
    requires b > 0
    ensures a >= 0 ==> 0 <= r < b
    ensures a < 0 ==> -b < r <= 0
    ensures a >= 0 ==> r == a % b
  {
    if a >= 0 then a % b else -((-a) % b)
  }

  /** A countdown as "Hh Mm" or "Mm". */
  datatype TimeText = HoursMinutes(hours: int, minutes: int) | MinutesOnly(minutes: int)

  /** `formatTimeRemaining` on a whole number of milliseconds. */
  function FormatTimeRemaining(ms: int): (t: TimeText)
    ensures t.HoursMinutes? <==> ms >= MsPerHour
    ensures t.HoursMinutes? ==> t.hours * MsPerHour <= ms < (t.hours + 1) * MsPerHour
    ensures ms >= 0 ==> 0 <= t.minutes < 60
    ensures ms < 0 ==> -60 <= t.minutes <= 0
  {
    var hours := ms / MsPerHour;                       // Math.floor(ms / 3600000)
    var minutes := JsRem(ms, MsPerHour) / MsPerMinute;  // Math.floor((ms % 3600000) / 60000)
    if hours > 0 then HoursMinutes(hours, minutes) else MinutesOnly(minutes)
  }

  /**
   * For a non-negative duration: whole hours and the whole minutes left over
   * (under 60) that together cover `ms` to the minute; the hours are shown
   * exactly when there is at least one.
   */
  lemma FormatTimeRemainingSplits(ms: int)
    requires ms >= 0
    ensures var t := FormatTimeRemaining(ms);
      var hours := if t.HoursMinutes? then t.hours else 0;
      && 0 <= t.minutes < 60
      && hours * MsPerHour + t.minutes * MsPerMinute <= ms < hours * MsPerHour + (t.minutes + 1) * MsPerMinute
      && (t.HoursMinutes? <==> ms >= MsPerHour)
  {
  }

  /** `getTimeUntilNextFunding` with the clock passed in as `now`. */
  function TimeUntilNextFunding(nextFundingTime: Option<int>, now: int): (r: Option<int>)
    ensures r.Some? <==> nextFundingTime.Some? && nextFundingTime.value > now
    ensures r.Some? ==> r.value > 0 && now + r.value == nextFundingTime.value
  {
    match nextFundingTime
    case None => None
    case Some(next) => if next - now > 0 then Some(next - now) else None
  }
}
