# Funding Rate Radar — a Dafny model of its decision logic

Funding Rate Radar is a dashboard for perpetual-futures funding rates. A
Next.js API route asks six venue adapters for the current funding rate of
four assets, merges their answers and marks them stale when a venue failed.
The page filters and sorts the tickers, picks the highest and lowest APR and
the next settlement due, and colours each APR by sign and size. A second
panel, "value context", expresses a profit or loss as multiples of everyday
prices and as days, months or years of a typical wage.

This project models the pure and imperative logic around the network code:

- `Symbols` (symbols.dfy): the symbol table, upper-casing, the hyphen split,
  the `[A-Z]+USDT` rule and the per-venue symbol formats.
- `FundingMath` (math.dfy): APR annualisation, the APR and multiple
  formatters, the nice-integer test, the comparison list and the countdown
  text.
- `Ui` (ui.dfy): the APR colour class and badge.
- `Wages` (wages.dfy): the wage presets, wage equivalents and FX re-pricing.
- `Selector` (selector.dfy): `selectSmartContextItems`. It is an imperative
  `Picker` class (the `picked` list and `used` id set that `take` updates),
  methods for each slot and a `FillUp` loop. The methods are proved equal to
  a functional specification (`SmartSelection`), and the selection's
  properties are proved about that specification.
- `Route` (route.dfy): the funding API handler. It covers parameter defaults,
  validation, one task per venue, the merge, the failed count and the stale
  marking. The stale marking is an in-place loop over an array.
- `Page` (page.dfy): the ticker filter/sort of the main page and its toggles.
- `SignalsBar` (signals_bar.dfy): the signals bar.
- `ValueContextView` (value_context_view.dfy): the value-context panel's
  predicate, comparisons, wage-unit choice and amount keys. The panel's
  `toggleFilter` (src/app/components/ValueContext.tsx:238-244) is the same
  expression as the page's toggles, so it is `Lists.Toggle` too.

Helpers:

- `Lists` (lists.dfy) holds one stable insertion sort keyed by a
  lexicographic `Key`. It stands in for every comparator sort in the source,
  since `Array.prototype.sort` is stable. It also holds filter/concat helpers
  and the list toggle.
- `Types` (types.dfy) and `Wrappers` (wrappers.dfy) hold the records and
  `Option`.

Modelling choices:

- Numbers are reals.
- Times are integer milliseconds, and the clock is a `now` parameter.
- Each adapter call is a `fetch` parameter that returns an outcome value.
- Formatted numbers are `NumberText(prefix, value, decimals, suffix)`. Their
  prefix, precision tier and suffix are modelled, not the digits `toFixed`
  prints.
- `label.localeCompare` is code-point lexicographic order on strings, proved
  to be a total order (`Lists.StrLeq*`).

## Model

| member | source | states |
|---|---|---|
| Lists.Filter | src/lib/utils/valueContext.ts:14-15 | `Array.filter`: an element is kept exactly when it is in the input and satisfies the predicate; every kept element satisfies it; never more than the input |
| Lists.FilterMultiplicity | src/lib/utils/valueContext.ts:14-15 | each satisfying element is kept as often as it occurs in the input; the others never occur |
| Lists.FilterAppend | src/lib/utils/valueContext.ts:14-15 | filtering a concatenation filters each part, so the kept elements stay in their original order |
| Lists.Count | src/app/api/funding/route.ts:63-64 | `filter(p).length`: the length of the filtered list, bounded by the input length and zero exactly when nothing matches |
| Lists.Concat | src/app/api/funding/route.ts:57-60 | an element is in the flattened list exactly when it is in one of the inner lists, and its length is the sum of the inner lengths |
| Lists.ReversedTail | src/lib/utils/valueContext.ts:27 | `slice(-n).reverse()`: min(n, length) elements, element i being the i-th from the end of the input |
| Lists.StrLeqReflexive | src/lib/utils/valueContext.ts:19 | the label order used as tie-breaker is reflexive |
| Lists.StrLeqTotal | src/lib/utils/valueContext.ts:19 | the label order is total |
| Lists.StrLeqTransitive | src/lib/utils/valueContext.ts:19 | the label order is transitive |
| Lists.StrLeqAntisymmetric | src/lib/utils/valueContext.ts:19 | the label order is antisymmetric, so only equal labels tie |
| Lists.KeyLeqReflexive | src/lib/utils/valueContext.ts:19 | the lexicographic (primary, secondary, label) comparator order is reflexive |
| Lists.KeyLeqTotal | src/lib/utils/valueContext.ts:19 | the comparator order is total |
| Lists.KeyLeqTransitive | src/lib/utils/valueContext.ts:19 | the comparator order is transitive |
| Lists.KeyLeqAntisymmetric | src/lib/utils/valueContext.ts:19 | the comparator order is antisymmetric |
| Lists.Insert | src/lib/utils/valueContext.ts:19 | one insertion step adds exactly the inserted element (multiset) |
| Lists.SortByKey | src/lib/utils/valueContext.ts:19 | the sort returns a permutation of its input |
| Lists.InsertSorted | src/lib/utils/valueContext.ts:19 | inserting into a sorted list keeps it sorted |
| Lists.SortByKeySorted | src/lib/utils/valueContext.ts:19 | the sort's output is ordered by the comparator |
| Lists.FirstMinIndex | src/lib/utils/valueContext.ts:49-52 | the first position holding a least key: least of all, and strictly below every key before it |
| Lists.SortHead | src/lib/utils/valueContext.ts:49-52 | `sort(...)[0]` is the first least element of the input, as a stable sort gives |
| Lists.FilterSorted | src/lib/utils/valueContext.ts:42-46 | filtering a sorted list keeps it sorted |
| Lists.SortByKeyMembers | src/lib/utils/valueContext.ts:19 | sorting neither adds nor loses members |
| Lists.SortFirst | src/lib/utils/valueContext.ts:55-60 | the head of a sorted copy is a member with the least key |
| Lists.SortedReverseTailDescending | src/lib/utils/valueContext.ts:27 | `slice(-n).reverse()` of an ascending list is descending |
| Lists.SortedTailCovers | src/lib/utils/valueContext.ts:27 | every element left out of `slice(-n).reverse()` is no larger than the last one kept |
| Lists.Without | src/app/page.tsx:126-132 | `filter(x => x !== v)`: v is gone, every other element's membership is unchanged |
| Lists.WithoutAbsent | src/app/page.tsx:126-132 | removing an absent value changes nothing |
| Lists.WithoutAppend | src/app/page.tsx:126-132 | removal distributes over concatenation |
| Lists.Toggle | src/app/page.tsx:126-140 | membership of the toggled value flips, others unchanged; an absent value is appended at the end (the same toggle as `toggleFilter` in src/app/components/ValueContext.tsx) |
| Lists.ToggleTwiceAbsent | src/app/page.tsx:126-140 | toggling an absent value twice restores the list |
| Lists.ToggleTwicePresent | src/app/page.tsx:126-140 | toggling a present value twice removes all its copies and appends one at the end |
| Types.Abs | src/lib/math.ts:37-41 | `Math.abs`: non-negative and equal to x or -x |
| Types.JsRound | src/lib/math.ts:37-41 | `Math.round`: the integer within half a unit, halves rounding up |
| FundingMath.CalculateAPR | src/lib/math.ts:4-7 | apr × periodHours = rate × 8760 (requires a non-zero period, which the source does not guard) |
| FundingMath.AprLinear | src/lib/math.ts:4-7 | the APR is linear in the rate: negation, zero rate and scaling carry over |
| FundingMath.AprOneBasisPointEightHours | src/lib/math.ts:4-7 | a 0.01% rate every 8 hours is an APR of exactly 0.1095 |
| FundingMath.FormatAPR | src/lib/math.ts:9-12 | '+' prefix exactly when apr ≥ 0, otherwise the number's own '-'; value apr×100, two decimals, '%' |
| FundingMath.Frac | src/lib/math.ts:37-41 | the fractional part lies in [0, 1) |
| FundingMath.RoundingGapFrac | src/lib/math.ts:37-41 | \|m − round(m)\| < 0.15 exactly when the fractional part is below 0.15 or above 0.85 |
| FundingMath.IsNiceInteger | src/lib/math.ts:37-41 | a multiple is nice exactly when the fractional part of its magnitude is below 0.15 or above 0.85 |
| FundingMath.FracNeg | src/lib/math.ts:37-41 | the fractional part of −x is 1 − frac(x), or 0 together with frac(x) |
| FundingMath.SignedNiceFlagAgrees | src/lib/math.ts:37-41 | the test on the signed multiple agrees with `isNiceInteger` on \|m\| for every real m, and `isNiceInteger` is symmetric |
| FundingMath.FormatMultiple | src/lib/math.ts:14-35 | '~' exactly for nice integers, '-' exactly for negatives; 0/1/2 decimals for \|m\| ≥ 10 / ≥ 2 / below; the shown value is \|m\| (within half a unit when rounded to no decimals); ends in '×' |
| FundingMath.ComparedItems | src/lib/math.ts:55-65 | kept items are exactly the positive-priced ones matching some active filter (oneOff→tech, monthly→housing/food/utilities, annual→leisure), or all positive ones without filters |
| FundingMath.CompareAll | src/lib/math.ts:67-71 | one comparison per kept item, in order |
| FundingMath.ComparisonsContents | src/lib/math.ts:44-89 | [] for amount 0; otherwise one comparison per kept item, each with multiple = amount/usd and a consistent nice-integer flag, and every kept item present |
| FundingMath.ComputeComparisons | src/lib/math.ts:44-89 | [] for amount 0; otherwise a permutation of the comparisons of the kept items |
| FundingMath.ComparisonFromKept | src/lib/math.ts:55-71 | every comparison comes from a kept item |
| FundingMath.KeptCompared | src/lib/math.ts:55-71 | every kept item's comparison is in the result |
| FundingMath.ComparisonsOrder | src/lib/math.ts:73-88 | results are ordered by \|multiple\| descending; in priority mode essentials (housing/food/utilities) come first, then \|multiple\| descending |
| FundingMath.JsRem | src/lib/math.ts:111-119 | JavaScript `%`: sign of the dividend, magnitude below the divisor; Euclidean for non-negative dividends |
| FundingMath.FormatTimeRemainingSplits | src/lib/math.ts:111-119 | for ms ≥ 0 the hours and minutes (< 60) bracket ms to the minute, and the "Hh Mm" form is used exactly when ms ≥ 1 hour |
| FundingMath.FormatTimeRemaining | src/lib/math.ts:111-119 | "Hh Mm" exactly when ms is at least an hour, with the whole hours in ms; minutes in [0, 60) for ms ≥ 0 and in [−60, 0] for negative ms |
| FundingMath.TimeUntilNextFunding | src/lib/math.ts:121-129 | present exactly when the next funding time lies after `now`, and then it is the positive difference |
| Ui.AprClass | src/lib/ui.ts:2-7 | muted for a missing APR or \|apr\| < 0.02, amber exactly for apr ≥ 0.02, akane exactly for apr ≤ −0.02 |
| Ui.AprClassSymmetric | src/lib/ui.ts:5-6 | for \|a\| ≥ 0.02, a is amber exactly when −a is akane, and neither is muted |
| Ui.FormatAPRWithClass | src/lib/ui.ts:10-14 | the class is `aprClass(apr)`; the text is '—' exactly for a missing APR, otherwise `formatAPR`'s |
| Wages.WageEquivalents | src/app/data/wages.ts:48-58 | days, months and years equal x divided by the daily, monthly and annual wage (sign·\|x\|/rate) |
| Wages.WageEquivalentsOdd | src/app/data/wages.ts:50-57 | negating x negates all three equivalents; x = 0 gives zeros |
| Wages.WageEquivalentsKeepSign | src/app/data/wages.ts:50-57 | with positive wages a gain gives positive and a loss negative equivalents |
| Wages.RecalculateWagePresetsWithFX | src/app/data/wages.ts:88-116 | US unchanged; EU becomes the EUR constants over fx with only figures and notes changed; JP keeps region and source, its monthly × fx is the yen wage, daily is monthly/17.6, annual is 12 × monthly |
| Wages.RecalculateIdempotent | src/app/data/wages.ts:88-116 | re-pricing twice with the same rates equals re-pricing once |
| Wages.JpDefaultsReproduced | src/app/data/wages.ts:38-40 | at the default ¥150 the JP figures reproduce the shipped JP preset (daily within 0.005) |
| Wages.EuRecalculationDisagreesWithDefaults | src/app/data/wages.ts:95-104 | at the default 1.08 the recalculated EU annual wage is the default divided by 1.08², over 4000 USD below it |
| Wages.RecalculateWagePresetsWithFXCorrected | src/app/data/wages.ts:88-116 | US and JP as in the source; EU keeps region and source |
| Wages.CorrectedEuConversion | src/app/data/wages.ts:26-28 | corrected EU figures are EUR × rate and rise with the rate; at 1.08 the annual figure reproduces the shipped annual default |
| Symbols.ToUpper | src/lib/symbols.ts:45 | upper-casing acts character by character and keeps the length |
| Symbols.ToUpperIdempotent | src/lib/symbols.ts:45 | upper-casing twice is upper-casing once; an upper-case word is unchanged |
| Symbols.MatchUsdt | src/lib/symbols.ts:64-69 | matches exactly the strings of one or more A–Z letters followed by "USDT", and gives that prefix |
| Symbols.Before | src/lib/symbols.ts:53-56 | the first `split('-')` field: a prefix of the string without '-' |
| Symbols.After | src/lib/symbols.ts:53-56 | the rest after the first '-', so that field + '-' + rest is the string |
| Symbols.SplitPair | src/lib/symbols.ts:53-56 | base and quote are the first two hyphen fields of the string |
| Symbols.NormalizeSymbol | src/lib/symbols.ts:44-70 | a table hit wins; hyperliquid and lighter never fail and give the bare base with USDT; otherwise a USDT result is the symbol with its USDT suffix removed; failure only when no table row or USDT pattern applies |
| Symbols.SymbolForExchange | src/lib/symbols.ts:72-86 | bare base for hyperliquid/lighter, base+"-USD" for extended, base+"USDT" for every other exchange |
| Symbols.SupportedRoundTrip | src/lib/symbols.ts:2-86 | for every supported asset and exchange, normalising the venue symbol gives back the asset with quote USD on extended and USDT elsewhere |
| Symbols.NormalizeIgnoresCase | src/lib/symbols.ts:45 | the result for s equals the result for upper(s) |
| Symbols.TableHitWins | src/lib/symbols.ts:46-50 | a table hit is returned whatever the exchange |
| Symbols.DashedSymbolOnBinance | src/lib/symbols.ts:46-50 | "btc-usd" on binance normalises to BTC/USD |
| Symbols.BaseOnlyVenuesAlwaysNormalise | src/lib/symbols.ts:58-61 | on hyperliquid and lighter the result is never null; unmapped symbols give {upper(s), USDT} |
| Symbols.ExtendedSplitsOnHyphen | src/lib/symbols.ts:53-56 | on extended an unmapped hyphenated symbol gives its first two hyphen fields |
| Symbols.UsdtPatternOtherwise | src/lib/symbols.ts:63-69 | otherwise a symbol is recognised exactly when it is letters A–Z then "USDT", giving that base and quote USDT |
| Symbols.DigitsAreRejected | src/lib/symbols.ts:63-69 | "1000PEPEUSDT" on binance is not recognised |
| Route.Split | src/app/api/funding/route.ts:15-16 | `split(',')`: at least one field, none containing a comma |
| Route.SplitJoin | src/app/api/funding/route.ts:15-16 | joining the fields with the separator gives back the parameter |
| Route.RequestList | src/app/api/funding/route.ts:15-16 | a missing parameter defaults to the full supported list; a present one is split on commas |
| Route.ValidAssets | src/app/api/funding/route.ts:19 | exactly the requested assets that are supported |
| Route.ValidExchanges | src/app/api/funding/route.ts:20 | exactly the requested exchanges that are supported |
| Route.FilterKeepsAll | src/app/api/funding/route.ts:19-20 | a filter that every element passes returns the list unchanged, in order and with duplicates |
| Route.ValidationKeepsSupported | src/app/api/funding/route.ts:19 | a request of supported assets passes validation unchanged, duplicates included |
| Route.Task | src/app/api/funding/route.ts:30-52 | a venue task always fulfils: the adapter's entries, or [] after an error or for an unknown venue |
| Route.Tasks | src/app/api/funding/route.ts:30-52 | one task per valid exchange, in order |
| Route.FulfilledValues | src/app/api/funding/route.ts:57-59 | a value list is collected exactly when a fulfilled result carries it, at most one per result |
| Route.FulfilledPlusFailed | src/app/api/funding/route.ts:57-64 | each settled result is counted once: fulfilled lists plus failed venues equal the number of venues |
| Route.Present | src/app/api/funding/route.ts:60 | `filter(Boolean)`: exactly the entries that are present |
| Route.Merge | src/app/api/funding/route.ts:57-60 | `allTickers`: a ticker is merged exactly when some fulfilled result's list holds it |
| Route.FailedCount | src/app/api/funding/route.ts:63-64 | bounded by the number of results, zero exactly when every result fulfilled |
| Route.AllStale | src/app/api/funding/route.ts:67-71 | every ticker, and only that field, becomes stale |
| Route.Respond | src/app/api/funding/route.ts:57-82 | meta echoes the valid lists, stale = failedCount > 0 and failedExchanges = failedCount; data is the merge, all stale exactly when stale |
| Route.MarkAllStale | src/app/api/funding/route.ts:67-71 | the in-place loop sets `stale` on every element and changes nothing else |
| Route.Get | src/app/api/funding/route.ts:14-82 | the handler returns the response the functional model prescribes |
| Route.MergeResults | src/app/api/funding/route.ts:54-82 | merging, counting and stale marking give `Respond`'s response |
| Route.InvalidRequestRejected | src/app/api/funding/route.ts:22-27 | the result is 400 exactly when a valid list is empty, and then no adapter result matters |
| Route.EmptyParameterRejected | src/app/api/funding/route.ts:22-27 | an empty `assets` parameter gives the 400 response |
| Route.DefaultRequest | src/app/api/funding/route.ts:15-16 | without parameters every supported asset and exchange is requested |
| Route.NoTaskFails | src/app/api/funding/route.ts:48-51 | because each task catches its error, the failed count is always 0 |
| Route.NeverStale | src/app/api/funding/route.ts:54-82 | every successful response is not stale, has failedExchanges 0 and carries the unmarked merge |
| Route.RejectionMarksEverything | src/app/api/funding/route.ts:63-71 | if any result rejected, the response is stale and every ticker, of every venue, is marked stale |
| Route.FulfilledValuesAppend | src/app/api/funding/route.ts:57-59 | collecting values distributes over concatenation |
| Lists.ConcatAppend | src/app/api/funding/route.ts:57-60 | flattening distributes over concatenation, so inner lists keep their order |
| Route.PresentAppend | src/app/api/funding/route.ts:60 | dropping missing entries distributes over concatenation |
| Route.TasksAppend | src/app/api/funding/route.ts:30-52 | tasks for a + b are the tasks for a followed by those for b |
| Route.MergeInVenueOrder | src/app/api/funding/route.ts:57-60 | the merge is the venues' lists concatenated in exchange order |
| Route.MergeOneVenue | src/app/api/funding/route.ts:30-60 | one venue contributes its present entries, or nothing when its adapter threw |
| Route.MergeMembers | src/app/api/funding/route.ts:30-60 | a ticker is in the merge exactly when some venue's adapter returned it |
| Page.Visible | src/app/page.tsx:88-107 | exactly the tickers passing the active quick filters |
| Page.Passes | src/app/page.tsx:91-104 | passes with no filter active; otherwise exactly when the APR is negative under negativesOnly and settlement is due within the hour under nextUnder1h |
| Page.VisibleIgnoresPinned | src/app/page.tsx:101-104 | the `pinned` flag does not change what is visible |
| Page.FilteredAndSorted | src/app/page.tsx:88-124 | [] without data; otherwise a permutation of the visible tickers: negatives only if asked, next funding within (now, now+1h) if asked; ordered by the sort mode |
| Page.PinnedIsNoOp | src/app/page.tsx:101-104 | the `pinned` flag does not change the result |
| Page.AprDescending | src/app/page.tsx:113-114 | the 'apr' mode orders by signed APR descending (missing = 0) |
| Page.AbsAprDescending | src/app/page.tsx:115-116 | the 'absApr' mode orders by \|APR\| descending |
| Page.NegativesFirstOrder | src/app/page.tsx:117-120 | 'negativesFirst': every negative precedes every non-negative, \|APR\| descending within a group |
| SignalsBar.FindIndex | src/app/components/FundingSignalsBar.tsx:19-21 | `find`: the first index satisfying the predicate, or none when none does |
| SignalsBar.Find | src/app/components/FundingSignalsBar.tsx:19-21 | `find`: none exactly when nothing satisfies the predicate, otherwise an element that does |
| SignalsBar.TopPositive | src/app/components/FundingSignalsBar.tsx:19-20 | a present result is one of the tickers, with a positive APR |
| SignalsBar.TopNegative | src/app/components/FundingSignalsBar.tsx:21 | a present result is one of the tickers, with a negative APR |
| SignalsBar.FoundFirstLeads | src/app/components/FundingSignalsBar.tsx:19-21 | in a sorted copy, the found element's key is no larger than that of any other matching element |
| SignalsBar.TopPositiveIsHighest | src/app/components/FundingSignalsBar.tsx:19-20 | absent exactly when no APR is positive; otherwise a positive ticker with the largest APR |
| SignalsBar.TopNegativeIsLowest | src/app/components/FundingSignalsBar.tsx:21 | absent exactly when no APR is negative; otherwise a negative ticker with the smallest APR |
| SignalsBar.DueSoon | src/app/components/FundingSignalsBar.tsx:24-30 | exactly the tickers due within the hour, each with its time until settlement |
| SignalsBar.SoonestNext | src/app/components/FundingSignalsBar.tsx:24-32 | absent exactly when nothing is due within the hour; otherwise a due ticker with the least time until settlement |
| SignalsBar.FormatTimeUntil | src/app/components/FundingSignalsBar.tsx:41-44 | whole minutes, floor(ms/60000), followed by 'm' |
| SignalsBar.Bases | src/app/components/FundingSignalsBar.tsx:35 | the set of distinct bases |
| SignalsBar.Venues | src/app/components/FundingSignalsBar.tsx:36 | the set of distinct exchanges |
| SignalsBar.CoverageBounds | src/app/components/FundingSignalsBar.tsx:35-36 | coverage counts are at most the ticker count and at least 1 for a non-empty list |
| SignalsBar.AnyStale | src/app/components/FundingSignalsBar.tsx:39 | true exactly when some ticker is stale |
| SignalsBar.FormatApr | src/app/components/FundingSignalsBar.tsx:46-50 | '—' exactly for a missing APR; '+' iff apr ≥ 0; one decimal exactly when apr ≥ 10, two for negatives |
| SignalsBar.FormatAprMatchesLibrary | src/app/components/FundingSignalsBar.tsx:46-50 | below 10 the bar's formatter gives the library `formatAPR` text, and from 10 up it does not |
| SignalsBar.Bar | src/app/components/FundingSignalsBar.tsx:10-39 | the "No data" chip exactly for an empty list; otherwise the coverage counts, stale flag and the three picks |
| Selector.Eligible | src/lib/utils/valueContext.ts:14-16 | exactly the positive-priced costs satisfying the optional predicate |
| Selector.CheapestFirst | src/lib/utils/valueContext.ts:19 | a permutation ordered by (usd, label) ascending |
| Selector.SortedEligible | src/lib/utils/valueContext.ts:14-19 | the eligible items, permuted into (usd, label) order; the caller's list is not reordered |
| Selector.AfterTake | src/lib/utils/valueContext.ts:30-37 | `take` appends an item only if its id is unused, records its id, and keeps picked ids distinct |
| Selector.Pool | src/lib/utils/valueContext.ts:42 | exactly the items whose id is unused |
| Selector.InBand | src/lib/utils/valueContext.ts:45 | exactly the items priced within [lo, hi] |
| Selector.AtLeast | src/lib/utils/valueContext.ts:56 | exactly the items priced at least lo |
| Selector.NearestFirst | src/lib/utils/valueContext.ts:112-116 | a permutation ordered by distance to the target, then usd, then label |
| Selector.Nearest | src/lib/utils/valueContext.ts:47-52 | a member that no other member beats on (distance, usd, label) |
| Selector.PickClosestInRange | src/lib/utils/valueContext.ts:44-53 | none exactly when the pool has nothing in range; otherwise the in-range pool item closest to the target, ties to lower usd then label |
| Selector.PickMinAbove | src/lib/utils/valueContext.ts:55-60 | none exactly when nothing reaches lo; otherwise the cheapest such item |
| Selector.PickMaxAbove | src/lib/utils/valueContext.ts:62-67 | none exactly when nothing reaches lo; otherwise the dearest such item |
| Selector.Slot4 | src/lib/utils/valueContext.ts:77-83 | the cheapest unused item from \|x\|/2 up; failing that, the last of the pool |
| Selector.Slot4FallbackIsDearest | src/lib/utils/valueContext.ts:80-83 | the fallback is the dearest unused item |
| Selector.MaxReasonable | src/lib/utils/valueContext.ts:88 | the cap is max(10\|x\|, 10000) |
| Selector.CappedTop | src/lib/utils/valueContext.ts:86-101 | none exactly when nothing reaches \|x\|/10; otherwise an unused item from \|x\|/10 up |
| Selector.Slot5 | src/lib/utils/valueContext.ts:86-109 | none exactly when the pool is empty; otherwise a pool item |
| Selector.Slot5Rules | src/lib/utils/valueContext.ts:86-109 | the dearest item within [\|x\|/10, cap] if any; the over-cap dearest if everything from \|x\|/10 is over the cap; closest to 2\|x\| only when nothing reaches \|x\|/10 |
| Selector.TakeFromPool | src/lib/utils/valueContext.ts:30-42 | taking a pool item keeps the picks drawn from the items with distinct ids |
| Selector.AfterSlot1 | src/lib/utils/valueContext.ts:39-40 | the cheapest item is always taken first |
| Selector.AfterSlot2 | src/lib/utils/valueContext.ts:71 | slot 2 keeps slot 1 and adds at most one item |
| Selector.AfterSlot3 | src/lib/utils/valueContext.ts:74 | slot 3 keeps slots 1–2 and adds at most one item |
| Selector.AfterSlot4 | src/lib/utils/valueContext.ts:77-83 | slot 4 keeps slots 1–3 and adds at most one item |
| Selector.Slots | src/lib/utils/valueContext.ts:71-109 | the five slots keep the earlier picks and hold at most five distinct items |
| Selector.Fill | src/lib/utils/valueContext.ts:112-121 | the top-up keeps the earlier picks, adds only pool items, stops at five, and keeps ids distinct |
| Selector.MainPicks | src/lib/utils/valueContext.ts:30-121 | one to five distinct eligible items extending the slot picks |
| Selector.DearestFirst | src/lib/utils/valueContext.ts:27 | the min(5, n) last items, last first |
| Selector.SmartSelection | src/lib/utils/valueContext.ts:8-125 | at most five items |
| Selector.Picker.constructor | src/lib/utils/valueContext.ts:29-30 | empty picked list and used set |
| Selector.Picker.Take | src/lib/utils/valueContext.ts:31-37 | the state becomes `AfterTake` of the old state, and validity is kept |
| Selector.ChooseSlot4 | src/lib/utils/valueContext.ts:77-83 | the `s4` reassignment computes `Slot4` |
| Selector.ChooseCappedTop | src/lib/utils/valueContext.ts:86-101 | the capped dearest pick computes `CappedTop` |
| Selector.ChooseSlot5 | src/lib/utils/valueContext.ts:86-109 | the `s5` reassignments compute `Slot5` |
| Selector.FillUp | src/lib/utils/valueContext.ts:117-120 | the fill loop with `break` reaches the state `Fill` prescribes |
| Selector.MainBranch | src/lib/utils/valueContext.ts:30-124 | outside the override, the selection is the main picks sorted by (usd, label) |
| Selector.OverrideBranch | src/lib/utils/valueContext.ts:26-28 | under the override, the selection is the five dearest, dearest first |
| Selector.TakeBands | src/lib/utils/valueContext.ts:39-74 | the first three `take` calls reach `AfterSlot3` |
| Selector.TakeSlots | src/lib/utils/valueContext.ts:39-109 | all five slot `take` calls reach `Slots` |
| Selector.PickMain | src/lib/utils/valueContext.ts:29-121 | the imperative picks equal `MainPicks` |
| Selector.SortEligible | src/lib/utils/valueContext.ts:14-19 | filtering and the in-place sort give `SortedEligible` |
| Selector.SelectSmartContextItems | src/lib/utils/valueContext.ts:8-125 | the method returns `SmartSelection` |
| Selector.DistinctTail | src/lib/utils/valueContext.ts:30-37 | dropping the head keeps ids distinct |
| Selector.DistinctCons | src/lib/utils/valueContext.ts:30-37 | prepending keeps ids distinct exactly when the new id is not already there |
| Selector.IdsCard | src/lib/utils/valueContext.ts:30-37 | there are at most as many ids as items, and as many exactly when ids are distinct |
| Selector.IdsCons | src/lib/utils/valueContext.ts:30-37 | prepending adds one id unless it was already present |
| Selector.PermutationDistinct | src/lib/utils/valueContext.ts:124 | re-sorting keeps ids distinct |
| Selector.PoolDistinct | src/lib/utils/valueContext.ts:42 | the pool of a distinct-id list has distinct ids |
| Selector.PoolIds | src/lib/utils/valueContext.ts:42 | the pool's ids are the item ids minus the used ones |
| Selector.UsedIdsWithin | src/lib/utils/valueContext.ts:30-42 | every used id belongs to an item |
| Selector.PoolCount | src/lib/utils/valueContext.ts:42 | with distinct ids, pool size plus picks equals the item count |
| Selector.FillCount | src/lib/utils/valueContext.ts:117-120 | the top-up reaches min(5, picks + fresh candidates) |
| Selector.RemainingFresh | src/lib/utils/valueContext.ts:113-116 | the top-up candidates have distinct, unused ids |
| Selector.FillFromPool | src/lib/utils/valueContext.ts:112-121 | topping up from the pool reaches min(5, item count) |
| Selector.FullSlotsCount | src/lib/utils/valueContext.ts:112-121 | when the slots already hold five, the result has min(5, n) items |
| Selector.ShortSlotsCount | src/lib/utils/valueContext.ts:112-121 | when the slots hold fewer, the top-up brings the result to min(5, n) |
| Selector.MainCount | src/lib/utils/valueContext.ts:30-121 | with distinct ids the main branch returns exactly min(5, #eligible) items |
| Selector.SelectionBounds | src/lib/utils/valueContext.ts:8-125 | at most five items, all eligible members of the input, and [] exactly when nothing is eligible |
| Selector.SelectedIsEligible | src/lib/utils/valueContext.ts:14-125 | every returned item is eligible |
| Selector.SelectionNonEmpty | src/lib/utils/valueContext.ts:17 | the result is empty exactly when nothing is eligible |
| Selector.OverrideCondition | src/lib/utils/valueContext.ts:26 | the override applies exactly when something is eligible and \|x\| reaches every eligible price |
| Selector.OverrideResult | src/lib/utils/valueContext.ts:26-28 | under the override: min(5, n) items in descending price, none dearer than an omitted one |
| Selector.DearestFirstShape | src/lib/utils/valueContext.ts:27 | `slice(-5).reverse()` of an ascending list is descending and covers the dearest items |
| Selector.SignIndependent | src/lib/utils/valueContext.ts:22-28 | x and −x give the same selection |
| Selector.MainBranchOrder | src/lib/utils/valueContext.ts:39-124 | the main branch is non-empty, sorted by (usd, label), id-distinct, and starts with a cheapest eligible item |
| Selector.FirstPickKept | src/lib/utils/valueContext.ts:39-40 | the first pick is the cheapest sorted item |
| Selector.SortedHeadLeast | src/lib/utils/valueContext.ts:19 | the head of the sorted list costs no more than any member |
| Selector.CheapestFirstOrder | src/lib/utils/valueContext.ts:124 | the final re-sort is ordered, keeps ids distinct and starts at the cheapest item |
| Selector.SelectionCount | src/lib/utils/valueContext.ts:8-125 | with distinct eligible ids the selection has exactly min(5, #eligible) items |
| Selector.Slot2Kept | src/lib/utils/valueContext.ts:71 | a slot-2 pick stays second among the main picks |
| Selector.Slot3Kept | src/lib/utils/valueContext.ts:74 | a slot-3 pick stays third among the main picks |
| Selector.Slot2Rule | src/lib/utils/valueContext.ts:44-71 | if something unused lies in [0.1\|x\|, 0.5\|x\|], slot 2 is the such item closest to 0.3\|x\|, ties to lower usd then label |
| Selector.SecondPick | src/lib/utils/valueContext.ts:44-71 | the second main pick obeys the slot-2 rule |
| Selector.BandTake | src/lib/utils/valueContext.ts:44-53 | a band pick, when the band holds an unused item, appends the closest one |
| Selector.TwoUsed | src/lib/utils/valueContext.ts:30-37 | after two picks the used ids are exactly theirs |
| Selector.Slot3Rule | src/lib/utils/valueContext.ts:44-74 | if something unused lies in [0.5\|x\|, 1.5\|x\|], slot 3 is the such item closest to \|x\| |
| Selector.ThirdPick | src/lib/utils/valueContext.ts:44-74 | the third main pick obeys the slot-3 rule |
| ValueContextView.FilteredCosts | src/app/components/ValueContext.tsx:127-131 | every cost for 'all'; otherwise exactly the costs of the chosen category |
| ValueContextView.FilteredCostsIsFilter | src/app/components/ValueContext.tsx:127-131 | the category filter is `Array.filter` with the category test, so each kept cost keeps its multiplicity |
| ValueContextView.FilteredCostsAppend | src/app/components/ValueContext.tsx:127-131 | filtering a concatenation filters each part, so the kept costs stay in order |
| ValueContextView.PredicateBroaderThanLibrary | src/app/components/ValueContext.tsx:138-147 | everything `computeComparisons` keeps passes the panel's predicate; travel under oneOff and housing under annual pass only the panel's |
| ValueContextView.SmartPredicate | src/app/components/ValueContext.tsx:138-147 | every item passes with no chip active; otherwise an item passes exactly when an active chip claims its category |
| ValueContextView.SmartItems | src/app/components/ValueContext.tsx:134-150 | nothing for amount 0; otherwise at most five positive-priced items of the chosen category passing the predicate, none exactly when there is no such item |
| ValueContextView.ViewComparison | src/app/components/ValueContext.tsx:154-157 | multiple × usd = amount, and the flag agrees with `isNiceInteger` |
| ValueContextView.Comparisons | src/app/components/ValueContext.tsx:153-160 | one comparison per smart item, in order |
| ValueContextView.Fmt | src/app/components/ValueContext.tsx:174 | no decimals exactly when \|v\| ≥ 10, otherwise one |
| ValueContextView.BestUnit | src/app/components/ValueContext.tsx:177-184 | years iff \|years\| ≥ 0.5; months iff not and \|months\| ≥ 0.5; days otherwise; the chosen value formatted by `fmt` |
| ValueContextView.BestUnitSignSymmetric | src/app/components/ValueContext.tsx:177-184 | a loss is shown in the same unit and precision as the equal gain, negated |
| ValueContextView.WageLines | src/app/components/ValueContext.tsx:163-191 | nothing for amount 0; otherwise US, EU, JP in that order, each with its best unit |
| ValueContextView.QuickAmount | src/app/components/ValueContext.tsx:232-236 | the new amount differs from the old by delta |
| ValueContextView.ArrowDelta | src/app/components/ValueContext.tsx:726-737 | outside inputs, ArrowUp adds and ArrowDown subtracts 10, or 100 with Shift; other keys do nothing |
| ValueContextView.ArrowsCancel | src/app/components/ValueContext.tsx:730-736 | ArrowUp then ArrowDown with the same Shift restores the amount |

## Left out

- The venue adapters (src/lib/exchanges/*.ts) are not part of this model. They are HTTP fetches, so each call is a `fetch` parameter returning an outcome value.
- The async fan-out: `Promise.allSettled` is a list of settled values computed one venue after another.
- The route's 500 path, cache headers and console logging: these are I/O.
- Digit strings: `toFixed`, `toLocaleString` and `Intl.NumberFormat` (including `formatUSD` and `generateOneLineSummary` in src/lib/math.ts) are left out. IEEE rounding is left out too. Formatters are modelled as prefix, value, precision tier and suffix.
- `Number.isFinite`, NaN and Infinity: values are reals, so eligibility is `usd > 0`.
- A period of 0 hours: `CalculateAPR` requires a non-zero period, because the source's division by zero yields Infinity, which reals cannot represent.
- `Wages.WageEquivalents`: requires non-zero daily, monthly and annual wages (`NonZeroRates`). The wage editor does let a user enter 0 (src/app/components/CostsEditorModal.tsx:456-481, where a cleared field is `Number('') = 0`). The source then divides by zero and the panel shows an infinite equivalent, which reals cannot represent. `Wages.WageEquivalentsOdd`, `ValueContextView.BestUnitSignSymmetric` and `ValueContextView.WageLines` carry the same precondition, so the model says nothing about a zero wage.
- `Wages.RecalculateWagePresetsWithFX`: requires non-zero exchange rates. A cleared FX field does pass 0 to the recalculation (src/app/components/CostsEditorModal.tsx:415-432 into `handleFxRateChange`), and the source then produces infinite wages, which reals cannot represent. `Wages.RecalculateIdempotent`, `Wages.RecalculateWagePresetsWithFXCorrected` and `Wages.CorrectedEuConversion` carry the same precondition (the last one requires a positive EUR rate).
- `Symbols.ToUpper`: upper-cases ASCII letters only; `toUpperCase` on other characters is not modelled.
- `label.localeCompare`: modelled as code-point order, not locale collation.
- `Symbols.SupportedRoundTrip`: proved over the supported 4 × 6 grid only, not for arbitrary letter bases.
- `SignalsBar.TopPositiveIsHighest` and `SignalsBar.TopNegativeIsLowest`: on ties they do not state which ticker is chosen. The model's stable sort does pick the first in input order.
- `Selector.SmartSelection`: its own contract gives only the size bound. The other properties are the lemmas listed above.
- `FundingMath.FormatTimeRemainingSplits`: the bracketing of ms by hours and minutes covers ms ≥ 0 only. For negative inputs `FormatTimeRemaining` uses JavaScript's truncating `%` (`JsRem`), and its contract bounds only the minutes.
- `Wages.CorrectedEuConversion`: the shipped EU daily and monthly defaults (122.84 and 2661.57, src/app/data/wages.ts:26-27) are not exactly the EUR figures × 1.08 (122.7744 and 2659.77), so only the annual default is claimed.
- `SignalsBar.TopPositive` and `SignalsBar.TopNegative`: their own contracts give only membership and sign; the extremal property and the empty case are in the lemmas above.
- React state, `useEffect` polling, debounce timers, localStorage persistence, the canvas PNG export and rendering: these are UI and I/O. Clock reads become a `now` parameter.
- src/app/lib/ui.ts is not part of this model: it is a duplicate `aprClass` that nothing imports. src/lib/utils/xMultiple.ts is not part of this model either: it is float logarithms whose only consumer is disabled.
- Ticker fields that no modelled decision reads (`nextFundingRate`, `currentEstRate`, `ts`, `history`, `source`) are omitted from `FundingTicker`. The ISO `nextFundingTime` string is an integer number of milliseconds, so invalid dates are not modelled.

## Findings

| source | as written | input that shows it | evidently intended | confidence | as-written member | corrected member |
|---|---|---|---|---|---|---|
| src/app/data/wages.ts:95-104 | EU wages are re-priced as EUR amount / fxEurUsd, while the shipped annual default (line 28) is the EUR amount × 1.08 | the default rate 1.08: the recalculated EU annual wage is 29573/1.08 ≈ 27382 USD instead of the default 31938.84 USD | EUR amount × fxEurUsd, the USD value of a euro wage | not executed | Wages.EuRecalculationDisagreesWithDefaults | Wages.RecalculateWagePresetsWithFXCorrected, Wages.CorrectedEuConversion |
