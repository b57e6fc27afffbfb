/** Wage presets and wage equivalence (src/app/data/wages.ts). */
module Wages {
  import opened Wrappers
  import opened Types

  datatype Region = US | EU | JP

  /** `meta.notes`: free text, or the template "Assumes fx <currency>→USD = <rate>; adjust in presets if needed." */
  datatype Notes = Plain(text: string) | FxAssumption(currency: string, rate: real)

  datatype Meta = Meta(source: string, notes: Option<Notes>)

  /** Typical daily, monthly and annual pay in USD. */
  datatype WagePreset = WagePreset(region: Region, dailyUsd: real, monthlyUsd: real, annualUsd: real, meta: Meta)

  /** `Record<'US' | 'EU' | 'JP', WagePreset>`. */
  datatype WagePresets = WagePresets(us: WagePreset, eu: WagePreset, jp: WagePreset)

  /** `WAGE_PRESETS`. */
  const DefaultPresets: WagePresets := WagePresets(
    WagePreset(US, 239.20, 5182.67, 62192.00,
      Meta("BLS: Median usual weekly earnings, Q2 2025",
           Some(Plain("Median weekly $1,196; monthly = annual/12.")))),
    WagePreset(EU, 122.84, 2661.57, 31938.84,
      Meta("Eurostat: net annual earnings (EU-27, 2024)", Some(FxAssumption("EUR", 1.08)))),
    WagePreset(JP, 124.92, 2198.52, 26382.24,
      Meta("Japan Statistical Handbook 2024 (monthly cash earnings & days worked)",
           Some(FxAssumption("JPY", 150.0)))))

  /** Default exchange rates of `recalculateWagePresetsWithFX`. */
  const DefaultFxEur: real := 1.08
  const DefaultFxJpy: real := 150.0

  /** The EUR and JPY wage bases the recalculation converts. */
  const EurDaily: real := 113.68
  const EurMonthly: real := 2462.75
  const EurAnnual: real := 29573.0
  const JpyMonthly: real := 329778.0
  const JpyDaysPerMonth: real := 17.6

  predicate PositiveRates(w: WagePreset) {
    w.dailyUsd > 0.0 && w.monthlyUsd > 0.0 && w.annualUsd > 0.0
  }

  /** The rates `wageEquivalents` divides by are all non-zero. */
  predicate NonZeroRates(w: WagePreset) {
    w.dailyUsd != 0.0 && w.monthlyUsd != 0.0 && w.annualUsd != 0.0
  }

  datatype Equivalents = Equivalents(days: real, months: real, years: real)

  /**
   * `wageEquivalents`: |x| divided by each rate, carrying the sign of x, which
   * is x / rate for every rate. A zero rate (which JavaScript turns into an
   * infinity) is outside the model.
   */
  function WageEquivalents(x: real, wage: WagePreset): (e: Equivalents)
    requires NonZeroRates(wage)
    ensures e.days == x / wage.dailyUsd
    ensures e.months == x / wage.monthlyUsd
    ensures e.years == x / wage.annualUsd
  {
    var absAmount := Abs(x);
    var sign := if x >= 0.0 then 1.0 else -1.0;
    Equivalents(sign * (absAmount / wage.dailyUsd), sign * (absAmount / wage.monthlyUsd), sign * (absAmount / wage.annualUsd))
  }

  /** A loss is the mirror image of a gain, and nothing is worth no time. */
  lemma WageEquivalentsOdd(x: real, wage: WagePreset)
    requires NonZeroRates(wage)
    ensures WageEquivalents(-x, wage) == Equivalents(-WageEquivalents(x, wage).days, -WageEquivalents(x, wage).months, -WageEquivalents(x, wage).years)
    ensures WageEquivalents(0.0, wage) == Equivalents(0.0, 0.0, 0.0)
  {
  }

  /** With positive rates, each equivalent has the sign of x. */
  lemma WageEquivalentsKeepSign(x: real, wage: WagePreset)
    requires PositiveRates(wage)
    ensures var e := WageEquivalents(x, wage);
      (x > 0.0 ==> e.days > 0.0 && e.months > 0.0 && e.years > 0.0)
      && (x < 0.0 ==> e.days < 0.0 && e.months < 0.0 && e.years < 0.0)
  {
  }

  /**
   * `recalculateWagePresetsWithFX`: a new record in which US is untouched and
   * EU/JP get fresh USD figures from the fixed EUR/JPY bases and the given
   * rates, plus a note naming the rate; region and source are kept.
   */
  function RecalculateWagePresetsWithFX(presets: WagePresets, fxEurUsd: real, fxJpyUsd: real): (r: WagePresets)
    requires fxEurUsd != 0.0 && fxJpyUsd != 0.0
    ensures r.us == presets.us
    ensures r.eu == presets.eu.(dailyUsd := EurDaily / fxEurUsd, monthlyUsd := EurMonthly / fxEurUsd,
                                annualUsd := EurAnnual / fxEurUsd,
                                meta := presets.eu.meta.(notes := Some(FxAssumption("EUR", fxEurUsd))))
    ensures r.jp.region == presets.jp.region && r.jp.meta.source == presets.jp.meta.source
    ensures r.jp.meta.notes == Some(FxAssumption("JPY", fxJpyUsd))
    ensures r.jp.dailyUsd * fxJpyUsd * JpyDaysPerMonth == JpyMonthly
    ensures r.jp.monthlyUsd * fxJpyUsd == JpyMonthly
    ensures r.jp.annualUsd == 12.0 * r.jp.monthlyUsd
  {
    presets.(
      eu := presets.eu.(
        dailyUsd := EurDaily / fxEurUsd,
        monthlyUsd := EurMonthly / fxEurUsd,
        annualUsd := EurAnnual / fxEurUsd,
        meta := presets.eu.meta.(notes := Some(FxAssumption("EUR", fxEurUsd)))),
      jp := presets.jp.(
        dailyUsd := (JpyMonthly / JpyDaysPerMonth) / fxJpyUsd,
        monthlyUsd := JpyMonthly / fxJpyUsd,
        annualUsd := (JpyMonthly * 12.0) / fxJpyUsd,
        meta := presets.jp.meta.(notes := Some(FxAssumption("JPY", fxJpyUsd)))))
  }

  /** The new figures ignore the incoming EU/JP numbers, so recalculating twice changes nothing. */
  lemma RecalculateIdempotent(presets: WagePresets, fxEurUsd: real, fxJpyUsd: real)
    requires fxEurUsd != 0.0 && fxJpyUsd != 0.0
    ensures var once := RecalculateWagePresetsWithFX(presets, fxEurUsd, fxJpyUsd);
      RecalculateWagePresetsWithFX(once, fxEurUsd, fxJpyUsd) == once
  {
  }

  /** At the default 150 JPY per USD the JP figures reproduce the shipped JP preset to within half a cent. */
  lemma JpDefaultsReproduced()
    ensures var jp := RecalculateWagePresetsWithFX(DefaultPresets, DefaultFxEur, DefaultFxJpy).jp;
      && Abs(jp.dailyUsd - DefaultPresets.jp.dailyUsd) < 0.005
      && jp.monthlyUsd == DefaultPresets.jp.monthlyUsd
      && jp.annualUsd == DefaultPresets.jp.annualUsd
      && jp == DefaultPresets.jp.(dailyUsd := jp.dailyUsd)
  {
  }

  /**
   * As written, the EU recalculation at the default rate does not reproduce
   * the shipped EU preset: the preset was made by multiplying the EUR figures
   * by 1.08, the recalculation divides by it.
   */
  lemma EuRecalculationDisagreesWithDefaults()
    ensures var eu := RecalculateWagePresetsWithFX(DefaultPresets, DefaultFxEur, DefaultFxJpy).eu;
      && eu.annualUsd * DefaultFxEur * DefaultFxEur == DefaultPresets.eu.annualUsd
      && eu.annualUsd < DefaultPresets.eu.annualUsd - 4000.0
  {
  }

  /** The recalculation with EUR converted to USD by multiplying with the EUR→USD rate. */
  function RecalculateWagePresetsWithFXCorrected(presets: WagePresets, fxEurUsd: real, fxJpyUsd: real): (r: WagePresets)
    requires fxEurUsd != 0.0 && fxJpyUsd != 0.0
    ensures r.us == presets.us && r.jp == RecalculateWagePresetsWithFX(presets, fxEurUsd, fxJpyUsd).jp
    ensures r.eu.region == presets.eu.region && r.eu.meta.source == presets.eu.meta.source
  {
    presets.(
      eu := presets.eu.(
        dailyUsd := EurDaily * fxEurUsd,
        monthlyUsd := EurMonthly * fxEurUsd,
        annualUsd := EurAnnual * fxEurUsd,
        meta := presets.eu.meta.(notes := Some(FxAssumption("EUR", fxEurUsd)))),
      jp := RecalculateWagePresetsWithFX(presets, fxEurUsd, fxJpyUsd).jp)
  }

  /**
   * Corrected, a stronger euro buys more dollars: each EU figure converts back
   * to its EUR base, grows with the rate, and the annual figure at the default
   * rate is the shipped EU annual figure.
   */
  lemma CorrectedEuConversion(presets: WagePresets, fxEurUsd: real, fxJpyUsd: real, fxHigher: real)
    requires 0.0 < fxEurUsd < fxHigher && fxJpyUsd != 0.0
    ensures var eu := RecalculateWagePresetsWithFXCorrected(presets, fxEurUsd, fxJpyUsd).eu;
      && eu.dailyUsd / fxEurUsd == EurDaily
      && eu.monthlyUsd / fxEurUsd == EurMonthly
      && eu.annualUsd / fxEurUsd == EurAnnual
      && eu.annualUsd < RecalculateWagePresetsWithFXCorrected(presets, fxHigher, fxJpyUsd).eu.annualUsd
    ensures RecalculateWagePresetsWithFXCorrected(DefaultPresets, DefaultFxEur, DefaultFxJpy).eu.annualUsd
      == DefaultPresets.eu.annualUsd
  {
  }
}
