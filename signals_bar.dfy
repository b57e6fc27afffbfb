/**
 * The signal chips above the ticker table
 * (src/app/components/FundingSignalsBar.tsx): the highest and lowest APR,
 * the soonest settlement within the hour, coverage counts and the stale flag.
 * The clock reading is the parameter `now`.
 */
module SignalsBar {
  import opened Wrappers
  import opened Types
  import opened Lists
  import FundingMath

  predicate IsPositive(t: FundingTicker) {
    AprOrZero(t) > 0.0
  }

  predicate IsNegative(t: FundingTicker) {
    AprOrZero(t) < 0.0
  }

  /** `(b.aprSigned || 0) - (a.aprSigned || 0)`: highest APR first. */
  function HighestFirst(t: FundingTicker): Key {
    Key(-AprOrZero(t), 0.0, "")
  }

  /** `(a.aprSigned || 0) - (b.aprSigned || 0)`: lowest APR first. */
  function LowestFirst(t: FundingTicker): Key {
    Key(AprOrZero(t), 0.0, "")
  }

  /** The index `s.find(p)` stops at: the first element satisfying `p`, if any. */
  function FindIndex(s: seq<FundingTicker>, p: FundingTicker -> bool): (r: Option<nat>)
    ensures r.None? <==> forall i :: 0 <= i < |s| ==> !p(s[i])
    ensures r.Some? ==> r.value < |s| && p(s[r.value]) && forall i :: 0 <= i < r.value ==> !p(s[i])
  {
    if s == [] then None
    else if p(s[0]) then Some(0)
    else
      match FindIndex(s[1..], p)
      case None => None
      case Some(k) => Some(k + 1)
  }

  /** `s.find(p)`. */
  function Find(s: seq<FundingTicker>, p: FundingTicker -> bool): (r: Option<FundingTicker>)
    ensures r.None? <==> forall t :: t in s ==> !p(t)
    ensures r.Some? ==> r.value in s && p(r.value)
  {
    match FindIndex(s, p)
    case None => None
    case Some(k) => Some(s[k])
  }

  /** `topPositive`: the first positive-APR ticker of a highest-first copy. */
  function TopPositive(tickers: seq<FundingTicker>): (r: Option<FundingTicker>)
    ensures r.Some? ==> r.value in tickers && AprOrZero(r.value) > 0.0
  {
    var sorted := SortByKey(tickers, HighestFirst);
    SameMembers(tickers, HighestFirst);
    Find(sorted, IsPositive)
  }

  /** `topNegative`: the first negative-APR ticker of a lowest-first copy. */
  function TopNegative(tickers: seq<FundingTicker>): (r: Option<FundingTicker>)
    ensures r.Some? ==> r.value in tickers && AprOrZero(r.value) < 0.0
  {
    var sorted := SortByKey(tickers, LowestFirst);
    SameMembers(tickers, LowestFirst);
    Find(sorted, IsNegative)
  }

  /** Sorting a copy keeps exactly the same tickers. */
  lemma SameMembers(tickers: seq<FundingTicker>, key: FundingTicker -> Key)
    ensures forall t :: t in SortByKey(tickers, key) <==> t in tickers
  {
    forall t ensures t in SortByKey(tickers, key) <==> t in tickers {
      SortByKeyMembers(tickers, key, t);
    }
  }

  /** In a sorted list, the first element satisfying `p` comes no later in key order than any other. */
  lemma FoundFirstLeads(s: seq<FundingTicker>, key: FundingTicker -> Key, p: FundingTicker -> bool, t: FundingTicker)
    requires SortedBy(s, key) && FindIndex(s, p).Some? && t in s && p(t)
    ensures KeyLeq(key(s[FindIndex(s, p).value]), key(t))
  {
    var k := FindIndex(s, p).value;
    var j :| 0 <= j < |s| && s[j] == t;
    if j == k {
      KeyLeqReflexive(key(t));
    }
  }

  /**
   * `topPositive` is there exactly when some APR is positive, and then it is
   * a positive ticker whose APR no other ticker exceeds.
   */
  lemma TopPositiveIsHighest(tickers: seq<FundingTicker>)
    ensures TopPositive(tickers).None? <==> forall t :: t in tickers ==> AprOrZero(t) <= 0.0
    ensures TopPositive(tickers).Some? ==>
      var top := TopPositive(tickers).value;
      top in tickers && AprOrZero(top) > 0.0
      && forall t :: t in tickers ==> AprOrZero(t) <= AprOrZero(top)
  {
    var s := SortByKey(tickers, HighestFirst);
    SortByKeySorted(tickers, HighestFirst);
    assert forall t :: t in s <==> t in tickers by {
      forall t ensures t in s <==> t in tickers {
        SortByKeyMembers(tickers, HighestFirst, t);
      }
    }
    if TopPositive(tickers).Some? {
      var top := TopPositive(tickers).value;
      forall t | t in tickers && IsPositive(t) ensures AprOrZero(t) <= AprOrZero(top) {
        FoundFirstLeads(s, HighestFirst, IsPositive, t);
      }
    } else {
      forall t | t in tickers ensures AprOrZero(t) <= 0.0 {
        var j :| 0 <= j < |s| && s[j] == t;
        assert !IsPositive(s[j]);
      }
    }
  }

  /**
   * `topNegative` is there exactly when some APR is negative, and then it is
   * a negative ticker whose APR no other ticker goes below.
   */
  lemma TopNegativeIsLowest(tickers: seq<FundingTicker>)
    ensures TopNegative(tickers).None? <==> forall t :: t in tickers ==> AprOrZero(t) >= 0.0
    ensures TopNegative(tickers).Some? ==>
      var low := TopNegative(tickers).value;
      low in tickers && AprOrZero(low) < 0.0
      && forall t :: t in tickers ==> AprOrZero(low) <= AprOrZero(t)
  {
    var s := SortByKey(tickers, LowestFirst);
    SortByKeySorted(tickers, LowestFirst);
    assert forall t :: t in s <==> t in tickers by {
      forall t ensures t in s <==> t in tickers {
        SortByKeyMembers(tickers, LowestFirst, t);
      }
    }
    if TopNegative(tickers).Some? {
      var low := TopNegative(tickers).value;
      forall t | t in tickers && IsNegative(t) ensures AprOrZero(low) <= AprOrZero(t) {
        FoundFirstLeads(s, LowestFirst, IsNegative, t);
      }
    } else {
      forall t | t in tickers ensures AprOrZero(t) >= 0.0 {
        var j :| 0 <= j < |s| && s[j] == t;
        assert !IsNegative(s[j]);
      }
    }
  }

  // ---------------------------------------------------------------------
  // The soonest settlement
  // ---------------------------------------------------------------------

  /** `{ ticker, timeUntil }`. */
  datatype Countdown = Countdown(ticker: FundingTicker, timeUntil: int)

  /** `(a, b) => a.timeUntil - b.timeUntil`. */
  function SoonestFirst(c: Countdown): Key {
    Key(c.timeUntil as real, 0.0, "")
  }

  /**
   * The tickers with a next settlement, paired with the time left until it,
   * kept when that lies strictly between now and an hour from now.
   */
  function DueSoon(tickers: seq<FundingTicker>, now: int): (r: seq<Countdown>)
    ensures forall c :: c in r <==> (c.ticker in tickers && DueWithinHour(c.ticker, now)
      && c.timeUntil == c.ticker.nextFundingTime.value - now)
  {
    if tickers == [] then []
    else
      var t := tickers[0];
      assert forall u :: u in tickers <==> u == t || u in tickers[1..];
      (if DueWithinHour(t, now) then [Countdown(t, t.nextFundingTime.value - now)] else [])
      + DueSoon(tickers[1..], now)
  }

  /**
   * `soonestNext`: the countdown with the least time left among the tickers
   * due within the hour; absent when there is none.
   */
  function SoonestNext(tickers: seq<FundingTicker>, now: int): (r: Option<Countdown>)
    ensures r.None? <==> forall t :: t in tickers ==> !DueWithinHour(t, now)
    ensures r.Some? ==> (r.value.ticker in tickers && DueWithinHour(r.value.ticker, now)
      && r.value.timeUntil == r.value.ticker.nextFundingTime.value - now
      && 0 < r.value.timeUntil < HourMs)
    ensures r.Some? ==> (forall t :: t in tickers && DueWithinHour(t, now) ==>
      r.value.timeUntil <= t.nextFundingTime.value - now)
  {
    var due := DueSoon(tickers, now);
    if due == [] then
      assert forall t :: t in tickers && DueWithinHour(t, now) ==>
        Countdown(t, t.nextFundingTime.value - now) in due;
      None
    else
      var c := SortFirst(due, SoonestFirst);
      assert forall t :: t in tickers && DueWithinHour(t, now) ==>
        Countdown(t, t.nextFundingTime.value - now) in due;
      Some(c)
  }

  /** `formatTimeUntil`: whole minutes, `Math.floor(ms / 60000)`, then 'm'. */
  function FormatTimeUntil(ms: int): (t: NumberText)
    ensures t.decimals == 0 && t.suffix == "m" && t.prefix == ""
    ensures t.value == t.value.Floor as real
    ensures t.value * 60000.0 <= ms as real < (t.value + 1.0) * 60000.0
  {
    NumberText("", (ms / 60000) as real, 0, "m")
  }

  // ---------------------------------------------------------------------
  // Coverage and staleness
  // ---------------------------------------------------------------------

  /** `new Set(tickers.map(t => t.base))`. */
  function Bases(tickers: seq<FundingTicker>): (r: set<string>)
    ensures forall b :: b in r <==> exists t :: t in tickers && t.base == b
  {
    if tickers == [] then {}
    else
      assert forall t :: t in tickers <==> t == tickers[0] || t in tickers[1..];
      {tickers[0].base} + Bases(tickers[1..])
  }

  /** `new Set(tickers.map(t => t.exchange))`. */
  function Venues(tickers: seq<FundingTicker>): (r: set<string>)
    ensures forall e :: e in r <==> exists t :: t in tickers && t.exchange == e
  {
    if tickers == [] then {}
    else
      assert forall t :: t in tickers <==> t == tickers[0] || t in tickers[1..];
      {tickers[0].exchange} + Venues(tickers[1..])
  }

  /** There are never more distinct assets or venues than tickers, and at least one of each when there is a ticker. */
  lemma {:induction false} CoverageBounds(tickers: seq<FundingTicker>)
    ensures |Bases(tickers)| <= |tickers| && |Venues(tickers)| <= |tickers|
    ensures tickers != [] ==> |Bases(tickers)| >= 1 && |Venues(tickers)| >= 1
  {
    if tickers != [] {
      CoverageBounds(tickers[1..]);
      assert Bases(tickers) == {tickers[0].base} + Bases(tickers[1..]);
      assert Venues(tickers) == {tickers[0].exchange} + Venues(tickers[1..]);
    }
  }

  /** `tickers.some(t => t.stale)`. */
  function AnyStale(tickers: seq<FundingTicker>): (b: bool)
    ensures b <==> exists t :: t in tickers && t.stale
  {
    if tickers == [] then false
    else
      assert forall t :: t in tickers <==> t == tickers[0] || t in tickers[1..];
      tickers[0].stale || AnyStale(tickers[1..])
  }

  // ---------------------------------------------------------------------
  // Formatting and the bar
  // ---------------------------------------------------------------------

  /**
   * `formatApr`: '—' when there is no APR; otherwise '+' for non-negative
   * values, the percentage, one decimal from 10 (i.e. 1000%) up, two below
   * (so always two for negatives), and '%'.
   */
  function FormatApr(apr: Option<real>): (d: Display)
    ensures d.Dash? <==> apr.None?
    ensures apr.Some? ==> (d.text.prefix == (if apr.value >= 0.0 then "+" else "")
      && d.text.value == apr.value * 100.0 && d.text.suffix == "%")
    ensures apr.Some? ==> (d.text.decimals == 1 <==> apr.value >= 10.0)
    ensures apr.Some? && apr.value < 0.0 ==> d.text.decimals == 2
  {
    match apr
    case None => Dash
    case Some(a) => Shown(NumberText(if a >= 0.0 then "+" else "", a * 100.0, if a >= 10.0 then 1 else 2, "%"))
  }

  /**
   * The bar's APR text is the library's `formatAPR` text below 10 and differs
   * from it, by one decimal fewer, from 10 up.
   */
  lemma FormatAprMatchesLibrary(a: real)
    ensures a < 10.0 <==> FormatApr(Some(a)) == Shown(FundingMath.FormatAPR(a))
  {
  }

  /** The chips the bar shows. */
  datatype Signals =
    | NoData
    | Chips(topPositive: Option<FundingTicker>, topNegative: Option<FundingTicker>,
            soonestNext: Option<Countdown>, activeAssets: nat, activeVenues: nat, stale: bool)

  /** `FundingSignalsBar({ tickers })`: "No data available" alone for an empty list, the chips otherwise. */
  function Bar(tickers: seq<FundingTicker>, now: int): (r: Signals)
    ensures r.NoData? <==> tickers == []
    ensures r.Chips? ==> r.activeAssets == |Bases(tickers)| && r.activeVenues == |Venues(tickers)|
    ensures r.Chips? ==> (r.stale <==> exists t :: t in tickers && t.stale)
    ensures r.Chips? ==> (r.topPositive == TopPositive(tickers) && r.topNegative == TopNegative(tickers)
      && r.soonestNext == SoonestNext(tickers, now))
  {
    if tickers == [] then NoData
    else Chips(TopPositive(tickers), TopNegative(tickers), SoonestNext(tickers, now),
               |Bases(tickers)|, |Venues(tickers)|, AnyStale(tickers))
  }
}
