/**
 * The decisions of the value-context panel (src/app/components/ValueContext.tsx):
 * the category filter and the filter-chip predicate that feed the smart
 * selector, the comparisons built from its picks, the wage-unit choice and
 * the quick-amount keys. React state, timers and the canvas export are not
 * modelled; each derived value is a function of the state it reads.
 */
module ValueContextView {
  import opened Wrappers
  import opened Types
  import opened Lists
  import Selector
  import FundingMath
  import Wages

  // ---------------------------------------------------------------------
  // What feeds the selector
  // ---------------------------------------------------------------------

  /** `selectedCategory`: 'all' or one category. */
  datatype CategoryChoice = All | Only(category: Category)

  /** Whether the category choice keeps a cost. */
  predicate Keeps(choice: CategoryChoice, c: CostItem) {
    choice.All? || c.category == Some(choice.category)
  }

  /** `filteredCosts`: every cost for 'all', otherwise the costs of exactly that category. */
  function FilteredCosts(costs: seq<CostItem>, choice: CategoryChoice): (r: seq<CostItem>)
    ensures forall c :: c in r <==> c in costs && (choice.Only? ==> c.category == Some(choice.category))
    ensures choice.All? ==> r == costs
  {
    if costs == [] then []
    else
      assert forall c :: c in costs <==> c == costs[0] || c in costs[1..];
      (if Keeps(choice, costs[0]) then [costs[0]] else []) + FilteredCosts(costs[1..], choice)
  }

  /** The category filter is `Array.filter` with the category test. */
  lemma {:induction false} FilteredCostsIsFilter(costs: seq<CostItem>, choice: CategoryChoice)
    ensures FilteredCosts(costs, choice) == Filter(costs, c => Keeps(choice, c))
  {
    if costs != [] {
      FilteredCostsIsFilter(costs[1..], choice);
    }
  }

  /** The filter keeps the costs' order: filtering a concatenation filters each part. */
  lemma {:induction false} FilteredCostsAppend(a: seq<CostItem>, b: seq<CostItem>, choice: CategoryChoice)
    ensures FilteredCosts(a + b, choice) == FilteredCosts(a, choice) + FilteredCosts(b, choice)
  {
    if a == [] {
      assert a + b == b;
    } else {
      assert (a + b)[0] == a[0];
      assert (a + b)[1..] == a[1..] + b;
      FilteredCostsAppend(a[1..], b, choice);
    }
  }

  function IsOneOffCategory(c: Option<Category>): bool {
    c == Some(Tech) || c == Some(Travel)
  }

  function IsMonthlyCategory(c: Option<Category>): bool {
    c == Some(Housing) || c == Some(Food) || c == Some(Utilities)
  }

  function IsAnnualCategory(c: Option<Category>): bool {
    c == Some(Leisure) || c == Some(Housing)
  }

  /** The categories each filter chip claims in the panel. */
  function ChipClaims(chip: FilterType, c: Category): bool {
    match chip
    case OneOff => c == Tech || c == Travel
    case Monthly => c == Housing || c == Food || c == Utilities
    case Annual => c == Leisure || c == Housing
  }

  /**
   * The smart-item `predicate`: with no active chip every item passes;
   * otherwise an item passes when one active chip claims its category (an
   * item without a category is claimed by none).
   */
  function SmartPredicate(filters: seq<FilterType>, item: CostItem): (b: bool)
    ensures |filters| == 0 ==> b
    ensures b <==> (|filters| == 0
                    || (item.category.Some? && exists chip :: chip in filters && ChipClaims(chip, item.category.value)))
  {
    if |filters| > 0 then
      (OneOff in filters && IsOneOffCategory(item.category))
      || (Monthly in filters && IsMonthlyCategory(item.category))
      || (Annual in filters && IsAnnualCategory(item.category))
    else true
  }

  /**
   * The panel's chip mapping is broader than the one `computeComparisons`
   * uses: whatever the library keeps, the panel keeps, and the panel also
   * counts travel as one-off and housing as annual.
   */
  lemma PredicateBroaderThanLibrary(filters: seq<FilterType>, item: CostItem)
    ensures FundingMath.MatchesComparisonFilters(filters, item) ==> SmartPredicate(filters, item)
    ensures filters == [OneOff] && item.category == Some(Travel) ==>
      SmartPredicate(filters, item) && !FundingMath.MatchesComparisonFilters(filters, item)
    ensures filters == [Annual] && item.category == Some(Housing) ==>
      SmartPredicate(filters, item) && !FundingMath.MatchesComparisonFilters(filters, item)
  {
  }

  /**
   * `smartItems`: nothing while the debounced amount is 0; otherwise the
   * selector's picks from the category-filtered costs under the chip
   * predicate.
   */
  function SmartItems(amount: real, costs: seq<CostItem>, choice: CategoryChoice, filters: seq<FilterType>): (r: seq<CostItem>)
    ensures amount == 0.0 ==> r == []
    ensures |r| <= Selector.MaxPicks
    ensures forall c :: c in r ==>
      && c in costs && c.usd > 0.0
      && (choice.Only? ==> c.category == Some(choice.category))
      && SmartPredicate(filters, c)
    ensures amount != 0.0 ==> (r == [] <==> forall c :: c in costs ==>
      !(c.usd > 0.0 && (choice.Only? ==> c.category == Some(choice.category)) && SmartPredicate(filters, c)))
  {
    if amount == 0.0 then []
    else
      var pred := Some((item: CostItem) => SmartPredicate(filters, item));
      var filtered := FilteredCosts(costs, choice);
      Selector.SelectionBounds(filtered, amount, pred);
      Selector.SmartSelection(filtered, amount, pred)
  }

  // ---------------------------------------------------------------------
  // Comparisons
  // ---------------------------------------------------------------------

  /** One `{ item, multiple, isNiceInteger }`, the flag tested on the signed multiple. */
  function ViewComparison(amount: real, item: CostItem): (c: ValueComparison)
    requires item.usd > 0.0
    ensures c.item == item && c.multiple * item.usd == amount
    ensures c.isNiceInteger == FundingMath.IsNiceInteger(c.multiple)
  {
    var m := amount / item.usd;
    FundingMath.SignedNiceFlagAgrees(m);
    ValueComparison(item, m, FundingMath.RoundingGap(m) < 0.15)
  }

  /**
   * `comparisons`: one per smart item, in order (each as `ViewComparison`
   * describes it).
   */
  function Comparisons(amount: real, items: seq<CostItem>): (r: seq<ValueComparison>)
    requires forall i :: 0 <= i < |items| ==> items[i].usd > 0.0
    ensures |r| == |items|
    ensures forall i :: 0 <= i < |r| ==> r[i] == ViewComparison(amount, items[i])
  {
    if items == [] then []
    else [ViewComparison(amount, items[0])] + Comparisons(amount, items[1..])
  }

  // ---------------------------------------------------------------------
  // Wage equivalents
  // ---------------------------------------------------------------------

  datatype WageUnit = Years | Months | Days

  /** `≈ fmt(v) unit`. */
  datatype UnitText = UnitText(unit: WageUnit, text: NumberText)

  /** `fmt`: no decimals from magnitude 10 up, one below. */
  function Fmt(v: real): (t: NumberText)
    ensures t.value == v && t.prefix == "" && t.suffix == ""
    ensures t.decimals == 0 <==> Abs(v) >= 10.0
    ensures t.decimals <= 1
  {
    NumberText("", v, if Abs(v) >= 10.0 then 0 else 1, "")
  }

  /**
   * `getBestUnit`: the largest unit in which the amount is worth at least
   * half a unit, falling back to days.
   */
  function BestUnit(e: Wages.Equivalents): (u: UnitText)
    ensures u.unit == Years <==> Abs(e.years) >= 0.5
    ensures u.unit == Months <==> Abs(e.years) < 0.5 && Abs(e.months) >= 0.5
    ensures u.unit == Days <==> Abs(e.years) < 0.5 && Abs(e.months) < 0.5
    ensures u.text == Fmt(match u.unit case Years => e.years case Months => e.months case Days => e.days)
  {
    if Abs(e.years) >= 0.5 then UnitText(Years, Fmt(e.years))
    else if Abs(e.months) >= 0.5 then UnitText(Months, Fmt(e.months))
    else UnitText(Days, Fmt(e.days))
  }

  /** A loss is shown in the same unit as the equal gain, with the value negated. */
  lemma BestUnitSignSymmetric(x: real, wage: Wages.WagePreset)
    requires Wages.NonZeroRates(wage)
    ensures var gain := BestUnit(Wages.WageEquivalents(x, wage));
      var loss := BestUnit(Wages.WageEquivalents(-x, wage));
      loss.unit == gain.unit && loss.text.value == -gain.text.value && loss.text.decimals == gain.text.decimals
  {
    Wages.WageEquivalentsOdd(x, wage);
  }

  /** `wagePresets[region]`. */
  function PresetFor(presets: Wages.WagePresets, region: Wages.Region): Wages.WagePreset {
    match region
    case US => presets.us
    case EU => presets.eu
    case JP => presets.jp
  }

  /**
   * `wageEquivalentsDisplay`: nothing for a zero amount; otherwise one line
   * per region, US, EU, JP, in that order.
   */
  function WageLines(amount: real, presets: Wages.WagePresets): (r: Option<seq<(Wages.Region, UnitText)>>)
    requires Wages.NonZeroRates(presets.us) && Wages.NonZeroRates(presets.eu) && Wages.NonZeroRates(presets.jp)
    ensures r.None? <==> amount == 0.0
    ensures r.Some? ==> |r.value| == 3 && r.value[0].0 == Wages.US && r.value[1].0 == Wages.EU && r.value[2].0 == Wages.JP
    ensures r.Some? ==> forall i :: 0 <= i < 3 ==>
      r.value[i].1 == BestUnit(Wages.WageEquivalents(amount, PresetFor(presets, r.value[i].0)))
  {
    if amount == 0.0 then None
    else Some([(Wages.US, BestUnit(Wages.WageEquivalents(amount, presets.us))),
               (Wages.EU, BestUnit(Wages.WageEquivalents(amount, presets.eu))),
               (Wages.JP, BestUnit(Wages.WageEquivalents(amount, presets.jp)))])
  }

  // ---------------------------------------------------------------------
  // The amount keys
  // ---------------------------------------------------------------------

  /** `handleQuickAmount(delta)`: the new amount. */
  function QuickAmount(amount: real, delta: real): (r: real)
    ensures r - amount == delta
  {
    amount + delta
  }

  datatype KeyPress = ArrowUp | ArrowDown | OtherKey

  /**
   * The keyboard handler: outside an input field, ArrowUp adds 10 (100 with
   * Shift), ArrowDown subtracts as much; any other key does nothing.
   */
  function ArrowDelta(key: KeyPress, shift: bool, inInput: bool): (d: Option<real>)
    ensures d.Some? <==> !inInput && key != OtherKey
    ensures d.Some? ==> Abs(d.value) == (if shift then 100.0 else 10.0)
    ensures d.Some? ==> (d.value > 0.0 <==> key == ArrowUp)
  {
    if inInput then None
    else match key
      case ArrowUp => Some(if shift then 100.0 else 10.0)
      case ArrowDown => Some(if shift then -100.0 else -10.0)
      case OtherKey => None
  }

  /** ArrowUp then ArrowDown, with Shift held the same way, restores the amount. */
  lemma ArrowsCancel(amount: real, shift: bool)
    ensures QuickAmount(QuickAmount(amount, ArrowDelta(ArrowUp, shift, false).value),
                        ArrowDelta(ArrowDown, shift, false).value) == amount
  {
  }
}
