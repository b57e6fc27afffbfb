/**
 * The dashboard's ticker list (src/app/page.tsx): the quick filters and sort
 * modes applied to the fetched tickers. The asset/venue selection toggles are
 * `Lists.Toggle`.
 * The clock reading `new Date().getTime()` is the parameter `now`.
 */
module Page {
  import opened Wrappers
  import opened Types
  import opened Lists

  /** `sortBy`. */
  datatype SortMode = Apr | AbsApr | NegativesFirst

  /** `quickFilters`. */
  datatype QuickFilters = QuickFilters(negativesOnly: bool, nextUnder1h: bool, pinned: bool)

  /** The filter callback; `pinned` has no effect. */
  function Passes(t: FundingTicker, f: QuickFilters, now: int): (b: bool)
    ensures !f.negativesOnly && !f.nextUnder1h ==> b
    ensures b <==> ((f.negativesOnly ==> AprOrZero(t) < 0.0)
                    && (f.nextUnder1h ==> t.nextFundingTime.Some? && 0 < t.nextFundingTime.value - now < HourMs))
  {
    && !(f.negativesOnly && AprOrZero(t) >= 0.0)
    && (f.nextUnder1h ==> DueWithinHour(t, now))
  }

  /** The tickers the quick filters let through, in fetched order. */
  function Visible(tickers: seq<FundingTicker>, f: QuickFilters, now: int): (r: seq<FundingTicker>)
    ensures forall t :: t in r <==> t in tickers && Passes(t, f, now)
  {
    if tickers == [] then []
    else
      assert forall t :: t in tickers <==> t == tickers[0] || t in tickers[1..];
      (if Passes(tickers[0], f, now) then [tickers[0]] else []) + Visible(tickers[1..], f, now)
  }

  /** The filter never looks at `pinned`. */
  lemma {:induction false} VisibleIgnoresPinned(tickers: seq<FundingTicker>, f: QuickFilters, now: int, pinned: bool)
    ensures Visible(tickers, f.(pinned := pinned), now) == Visible(tickers, f, now)
  {
    if tickers != [] {
      VisibleIgnoresPinned(tickers[1..], f, now, pinned);
    }
  }

  /** 'apr': `aprB - aprA`, highest APR first. */
  function AprKey(t: FundingTicker): Key {
    Key(-AprOrZero(t), 0.0, "")
  }

  /** 'absApr': `|aprB| - |aprA|`, largest magnitude first. */
  function AbsAprKey(t: FundingTicker): Key {
    Key(-Abs(AprOrZero(t)), 0.0, "")
  }

  /** 'negativesFirst': negative APRs before the others, then by magnitude. */
  function NegativesFirstKey(t: FundingTicker): Key {
    Key(if AprOrZero(t) < 0.0 then 0.0 else 1.0, -Abs(AprOrZero(t)), "")
  }

  function ModeKey(mode: SortMode): FundingTicker -> Key {
    match mode
    case Apr => AprKey
    case AbsApr => AbsAprKey
    case NegativesFirst => NegativesFirstKey
  }

  /**
   * `filteredAndSortedData`: nothing without data; otherwise a copy of the
   * fetched tickers, cut down to those the quick filters keep (each one, as
   * often as it was fetched) and sorted by the mode's comparator.
   */
  function FilteredAndSorted(data: Option<seq<FundingTicker>>, f: QuickFilters, mode: SortMode, now: int): (r: seq<FundingTicker>)
    ensures data.None? ==> r == []
    ensures data.Some? ==> multiset(r) == multiset(Visible(data.value, f, now))
    ensures forall t :: t in r <==>
      && data.Some? && t in data.value
      && (f.negativesOnly ==> AprOrZero(t) < 0.0)
      && (f.nextUnder1h ==> t.nextFundingTime.Some? && 0 < t.nextFundingTime.value - now < HourMs)
    ensures SortedBy(r, ModeKey(mode))
  {
    if data.None? then []
    else
      var visible := Visible(data.value, f, now);
      SortByKeySorted(visible, ModeKey(mode));
      var r := SortByKey(visible, ModeKey(mode));
      assert forall t :: t in r <==> t in multiset(r);
      r
  }

  /** The `pinned` switch changes nothing. */
  lemma PinnedIsNoOp(data: Option<seq<FundingTicker>>, f: QuickFilters, mode: SortMode, now: int, pinned: bool)
    ensures FilteredAndSorted(data, f.(pinned := pinned), mode, now) == FilteredAndSorted(data, f, mode, now)
  {
    if data.Some? {
      VisibleIgnoresPinned(data.value, f, now, pinned);
    }
  }

  /** 'apr' puts the highest APR first (a missing APR counting as zero). */
  lemma AprDescending(data: Option<seq<FundingTicker>>, f: QuickFilters, now: int, i: int, j: int)
    requires 0 <= i < j < |FilteredAndSorted(data, f, Apr, now)|
    ensures var r := FilteredAndSorted(data, f, Apr, now);
      AprOrZero(r[i]) >= AprOrZero(r[j])
  {
    var r := FilteredAndSorted(data, f, Apr, now);
    assert KeyLeq(AprKey(r[i]), AprKey(r[j]));
  }

  /** 'absApr' puts the largest |APR| first. */
  lemma AbsAprDescending(data: Option<seq<FundingTicker>>, f: QuickFilters, now: int, i: int, j: int)
    requires 0 <= i < j < |FilteredAndSorted(data, f, AbsApr, now)|
    ensures var r := FilteredAndSorted(data, f, AbsApr, now);
      Abs(AprOrZero(r[i])) >= Abs(AprOrZero(r[j]))
  {
    var r := FilteredAndSorted(data, f, AbsApr, now);
    assert KeyLeq(AbsAprKey(r[i]), AbsAprKey(r[j]));
  }

  /**
   * 'negativesFirst': no negative APR comes after a non-negative one, and
   * within each group the larger |APR| comes first.
   */
  lemma NegativesFirstOrder(data: Option<seq<FundingTicker>>, f: QuickFilters, now: int, i: int, j: int)
    requires 0 <= i < j < |FilteredAndSorted(data, f, NegativesFirst, now)|
    ensures var r := FilteredAndSorted(data, f, NegativesFirst, now);
      && (AprOrZero(r[j]) < 0.0 ==> AprOrZero(r[i]) < 0.0)
      && ((AprOrZero(r[i]) < 0.0) == (AprOrZero(r[j]) < 0.0) ==> Abs(AprOrZero(r[i])) >= Abs(AprOrZero(r[j])))
  {
    var r := FilteredAndSorted(data, f, NegativesFirst, now);
    assert KeyLeq(NegativesFirstKey(r[i]), NegativesFirstKey(r[j]));
  }
}
