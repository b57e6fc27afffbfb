/**
 * The `GET /api/funding` handler (src/app/api/funding/route.ts): query
 * validation, one adapter call per requested venue, the merge of the
 * per-venue results and the stale policy.
 *
 * Each venue adapter is an HTTP client; here it is the parameter `fetch`,
 * which maps a venue name and the validated asset list to what the adapter
 * produced: a list of (possibly missing) tickers, or a thrown error.
 */
module Route {
  import opened Wrappers
  import opened Types
  import opened Lists
  import Symbols

  // ---------------------------------------------------------------------
  // Query parameters
  // ---------------------------------------------------------------------

  /** `s.split(sep)`: the fields between the separators; there is always one at least. */
  function Split(s: string, sep: char): (r: seq<string>)
    ensures |r| >= 1
    ensures forall i :: 0 <= i < |r| ==> sep !in r[i]
  {
    if s == [] then [""]
    else
      var rest := Split(s[1..], sep);
      if s[0] == sep then [""] + rest
      else [[s[0]] + rest[0]] + rest[1..]
  }

  /** `fields.join(sep)`. */
  function Join(fields: seq<string>, sep: char): string
    requires |fields| >= 1
  {
    if |fields| == 1 then fields[0] else fields[0] + [sep] + Join(fields[1..], sep)
  }

  /** Splitting loses nothing: joining the fields back gives the parameter. */
  lemma {:induction false} SplitJoin(s: string, sep: char)
    ensures Join(Split(s, sep), sep) == s
  {
    if s != [] {
      var rest := Split(s[1..], sep);
      SplitJoin(s[1..], sep);
      if s[0] == sep {
        assert ([""] + rest)[1..] == rest;
        assert s == [sep] + s[1..];
      } else {
        var r := [[s[0]] + rest[0]] + rest[1..];
        assert r[1..] == rest[1..];
        if |rest| > 1 {
          assert rest[1..] == rest[1..];
          assert Join(rest, sep) == rest[0] + [sep] + Join(rest[1..], sep);
        }
        assert s == [s[0]] + s[1..];
      }
    }
  }

  /**
   * `searchParams.get(name)?.split(',') || defaults`: a missing parameter
   * gives the defaults; a present one, even an empty one, gives its
   * comma-separated fields (a split never yields an empty, falsy list).
   */
  function RequestList(param: Option<string>, defaults: seq<string>): (r: seq<string>)
    ensures param.None? ==> r == defaults
    ensures param.Some? ==> |r| >= 1 && Join(r, ',') == param.value
    ensures param.Some? ==> forall i :: 0 <= i < |r| ==> ',' !in r[i]
  {
    if param.Some? then
      SplitJoin(param.value, ',');
      Split(param.value, ',')
    else defaults
  }

  predicate IsSupportedAsset(asset: string) {
    asset in Symbols.SupportedAssets
  }

  predicate IsSupportedExchange(exchange: string) {
    exchange in Symbols.SupportedExchanges
  }

  /** `assets.filter(a => SUPPORTED_ASSETS.includes(a))`. */
  function ValidAssets(requested: seq<string>): (r: seq<string>)
    ensures forall a :: a in r <==> a in requested && a in Symbols.SupportedAssets
  {
    Filter(requested, IsSupportedAsset)
  }

  /** `exchanges.filter(e => SUPPORTED_EXCHANGES.includes(e))`. */
  function ValidExchanges(requested: seq<string>): (r: seq<string>)
    ensures forall e :: e in r <==> e in requested && e in Symbols.SupportedExchanges
  {
    Filter(requested, IsSupportedExchange)
  }

  /** A filter that rejects nothing returns its input, order and repeats included. */
  lemma {:induction false} FilterKeepsAll(s: seq<string>, p: string -> bool)
    requires forall i :: 0 <= i < |s| ==> p(s[i])
    ensures Filter(s, p) == s
  {
    if s != [] {
      FilterKeepsAll(s[1..], p);
    }
  }

  /**
   * Validation only drops: when every requested asset is supported the list
   * reaches the adapters unchanged, so a repeated asset is asked for twice.
   */
  lemma ValidationKeepsSupported(requested: seq<string>)
    requires forall i :: 0 <= i < |requested| ==> requested[i] in Symbols.SupportedAssets
    ensures ValidAssets(requested) == requested
  {
    FilterKeepsAll(requested, IsSupportedAsset);
  }

  // ---------------------------------------------------------------------
  // Adapter calls and their settled results
  // ---------------------------------------------------------------------

  /** What an adapter call produced: its ticker list (entries may be missing) or an error. */
  datatype AdapterOutcome = Returned(entries: seq<Option<FundingTicker>>) | Threw

  /** One entry of `Promise.allSettled`. */
  datatype Settled = Fulfilled(value: seq<Option<FundingTicker>>) | Rejected

  predicate IsRejected(s: Settled) {
    s.Rejected?
  }

  /**
   * One venue's task: the `switch` calls that venue's adapter (an unknown
   * venue gives []), and the surrounding `catch` turns a thrown error into [].
   * The task therefore never rejects.
   */
  function Task(exchange: string, assets: seq<string>, fetch: (string, seq<string>) -> AdapterOutcome): (r: Settled)
    ensures r.Fulfilled?
    ensures fetch(exchange, assets).Threw? || exchange !in Symbols.SupportedExchanges ==> r.value == []
    ensures fetch(exchange, assets).Returned? && exchange in Symbols.SupportedExchanges ==>
      r.value == fetch(exchange, assets).entries
  {
    if exchange in Symbols.SupportedExchanges then
      match fetch(exchange, assets)
      case Returned(entries) => Fulfilled(entries)
      case Threw => Fulfilled([])
    else Fulfilled([])
  }

  /** `validExchanges.map(task)`: one task per venue, in venue order. */
  function Tasks(exchanges: seq<string>, assets: seq<string>, fetch: (string, seq<string>) -> AdapterOutcome): (r: seq<Settled>)
    ensures |r| == |exchanges|
    ensures forall i :: 0 <= i < |r| ==> r[i] == Task(exchanges[i], assets, fetch)
  {
    if exchanges == [] then []
    else [Task(exchanges[0], assets, fetch)] + Tasks(exchanges[1..], assets, fetch)
  }

  /** `results.filter(fulfilled).map(r => r.value)`. */
  function FulfilledValues(results: seq<Settled>): (r: seq<seq<Option<FundingTicker>>>)
    ensures |r| <= |results|
    ensures forall v :: v in r <==> Fulfilled(v) in results
  {
    if results == [] then []
    else
      assert forall e :: e in results <==> e == results[0] || e in results[1..];
      (if results[0].Fulfilled? then [results[0].value] else []) + FulfilledValues(results[1..])
  }

  /** `.filter(Boolean)`: the entries that are present. */
  function Present(entries: seq<Option<FundingTicker>>): (r: seq<FundingTicker>)
    ensures |r| <= |entries|
    ensures forall t :: t in r <==> Some(t) in entries
  {
    if entries == [] then []
    else
      assert forall e :: e in entries <==> e == entries[0] || e in entries[1..];
      (if entries[0].Some? then [entries[0].value] else []) + Present(entries[1..])
  }

  /** `allTickers`: the fulfilled lists, flattened in order, with missing entries dropped. */
  function Merge(results: seq<Settled>): (r: seq<FundingTicker>)
    ensures forall t :: t in r <==> exists v :: Fulfilled(v) in results && Some(t) in v
  {
    var values := FulfilledValues(results);
    assert forall t :: Some(t) in Concat(values) <==> exists i :: 0 <= i < |values| && Some(t) in values[i];
    Present(Concat(values))
  }

  /** `results.filter(r => r.status === 'rejected').length`. */
  function FailedCount(results: seq<Settled>): (n: nat)
    ensures n <= |results|
    ensures n == 0 <==> forall i :: 0 <= i < |results| ==> results[i].Fulfilled?
  {
    Count(results, IsRejected)
  }

  // ---------------------------------------------------------------------
  // The response
  // ---------------------------------------------------------------------

  /** `meta`; the ISO timestamp is the clock reading `now`, in epoch milliseconds. */
  datatype Meta = Meta(timestamp: int, assets: seq<string>, exchanges: seq<string>, stale: bool, failedExchanges: nat)

  /** The 400 reply or the 200 reply's body. */
  datatype Response = BadRequest(error: string) | Ok(data: seq<FundingTicker>, meta: Meta)

  const InvalidRequest: string := "Invalid assets or exchanges"

  /** Every ticker with `stale` set. */
  function AllStale(tickers: seq<FundingTicker>): (r: seq<FundingTicker>)
    ensures |r| == |tickers|
    ensures forall i :: 0 <= i < |r| ==> r[i].stale && r[i] == tickers[i].(stale := true)
  {
    if tickers == [] then [] else [tickers[0].(stale := true)] + AllStale(tickers[1..])
  }

  /**
   * The 200 reply built from whatever the tasks settled to: the merge, marked
   * stale throughout when any task was rejected, and `meta` echoing the valid
   * lists and the failure count.
   */
  function Respond(assets: seq<string>, exchanges: seq<string>, results: seq<Settled>, now: int): (r: Response)
    ensures r.Ok? && r.meta == Meta(now, assets, exchanges, FailedCount(results) > 0, FailedCount(results))
    ensures |r.data| == |Merge(results)|
    ensures r.meta.stale ==> forall i :: 0 <= i < |r.data| ==> r.data[i] == Merge(results)[i].(stale := true)
    ensures !r.meta.stale ==> r.data == Merge(results)
  {
    var merged := Merge(results);
    var failed := FailedCount(results);
    Ok(if failed > 0 then AllStale(merged) else merged, Meta(now, assets, exchanges, failed > 0, failed))
  }

  /** What `GET` answers for the two query parameters, the adapters and the clock. */
  function FundingResponse(assetsParam: Option<string>, exchangesParam: Option<string>,
                           fetch: (string, seq<string>) -> AdapterOutcome, now: int): Response
  {
    var assets := ValidAssets(RequestList(assetsParam, Symbols.SupportedAssets));
    var exchanges := ValidExchanges(RequestList(exchangesParam, Symbols.SupportedExchanges));
    if |assets| == 0 || |exchanges| == 0 then BadRequest(InvalidRequest)
    else Respond(assets, exchanges, Tasks(exchanges, assets, fetch), now)
  }

  // ---------------------------------------------------------------------
  // The handler
  // ---------------------------------------------------------------------

  /** `allTickers.forEach(t => { t.stale = true; })`. */
  method MarkAllStale(tickers: array<FundingTicker>)
    modifies tickers
    ensures forall i :: 0 <= i < tickers.Length ==> tickers[i] == old(tickers[i]).(stale := true)
  {
    var i := 0;
    while i < tickers.Length
      invariant 0 <= i <= tickers.Length
      invariant forall j :: 0 <= j < i ==> tickers[j] == old(tickers[j]).(stale := true)
      invariant forall j :: i <= j < tickers.Length ==> tickers[j] == old(tickers[j])
    {
      tickers[i] := tickers[i].(stale := true);
      i := i + 1;
    }
  }

  /** `GET(request)`, with the query parameters, the adapters and the clock as inputs. */
  method Get(assetsParam: Option<string>, exchangesParam: Option<string>,
             fetch: (string, seq<string>) -> AdapterOutcome, now: int)
    returns (response: Response)
    ensures response == FundingResponse(assetsParam, exchangesParam, fetch, now)
  {
    var assets := RequestList(assetsParam, Symbols.SupportedAssets);
    var exchanges := RequestList(exchangesParam, Symbols.SupportedExchanges);
    var validAssets := ValidAssets(assets);
    var validExchanges := ValidExchanges(exchanges);
    if |validAssets| == 0 || |validExchanges| == 0 {
      return BadRequest(InvalidRequest);
    }
    var results := Tasks(validExchanges, validAssets, fetch);
    response := MergeResults(validAssets, validExchanges, results, now);
  }

  /**
   * The part of `GET` after `Promise.allSettled`: merge the fulfilled lists,
   * count the rejections and, if there were any, mark every merged ticker
   * stale in place.
   */
  method MergeResults(validAssets: seq<string>, validExchanges: seq<string>, results: seq<Settled>, now: int)
    returns (response: Response)
    ensures response == Respond(validAssets, validExchanges, results, now)
  {
    var merged := Merge(results);
    var allTickers := new FundingTicker[|merged|](i requires 0 <= i < |merged| => merged[i]);
    var failedCount := FailedCount(results);
    var hasStaleData := failedCount > 0;
    if hasStaleData {
      MarkAllStale(allTickers);
      assert allTickers[..] == AllStale(merged);
    } else {
      assert allTickers[..] == merged;
    }
    response := Ok(allTickers[..], Meta(now, validAssets, validExchanges, hasStaleData, failedCount));
  }

  // ---------------------------------------------------------------------
  // Properties
  // ---------------------------------------------------------------------

  /**
   * The reply is a 400 exactly when no requested asset or no requested venue
   * is supported, and then no adapter is consulted: any two sets of adapters
   * give the same reply.
   */
  lemma InvalidRequestRejected(assetsParam: Option<string>, exchangesParam: Option<string>,
                               fetch: (string, seq<string>) -> AdapterOutcome,
                               other: (string, seq<string>) -> AdapterOutcome, now: int)
    ensures var assets := ValidAssets(RequestList(assetsParam, Symbols.SupportedAssets));
      var exchanges := ValidExchanges(RequestList(exchangesParam, Symbols.SupportedExchanges));
      FundingResponse(assetsParam, exchangesParam, fetch, now).BadRequest? <==> assets == [] || exchanges == []
    ensures FundingResponse(assetsParam, exchangesParam, fetch, now).BadRequest? ==>
      FundingResponse(assetsParam, exchangesParam, fetch, now) == FundingResponse(assetsParam, exchangesParam, other, now)
  {
  }

  /** An empty parameter is one empty field, which no list supports: a 400. */
  lemma EmptyParameterRejected(exchangesParam: Option<string>, fetch: (string, seq<string>) -> AdapterOutcome, now: int)
    ensures FundingResponse(Some(""), exchangesParam, fetch, now) == BadRequest(InvalidRequest)
  {
    assert Split("", ',') == [""];
    assert "" !in Symbols.SupportedAssets;
    assert ValidAssets([""]) == [];
  }

  /** No parameters at all: every supported asset at every supported venue. */
  lemma DefaultRequest(fetch: (string, seq<string>) -> AdapterOutcome, now: int)
    ensures var r := FundingResponse(None, None, fetch, now);
      r.Ok? && r.meta.assets == Symbols.SupportedAssets && r.meta.exchanges == Symbols.SupportedExchanges
  {
    var assets := RequestList(None, Symbols.SupportedAssets);
    var exchanges := RequestList(None, Symbols.SupportedExchanges);
    ValidationKeepsSupported(assets);
    FilterKeepsAll(exchanges, IsSupportedExchange);
    assert ValidAssets(assets) == Symbols.SupportedAssets;
    assert ValidExchanges(exchanges) == Symbols.SupportedExchanges;
  }

  /** Tasks catch their own errors: none is rejected, so nothing counts as failed. */
  lemma NoTaskFails(exchanges: seq<string>, assets: seq<string>, fetch: (string, seq<string>) -> AdapterOutcome)
    ensures FailedCount(Tasks(exchanges, assets, fetch)) == 0
  {
  }

  /**
   * Whatever the adapters do, a 200 reply is never stale, reports no failed
   * venue and carries the merge untouched.
   */
  lemma NeverStale(assetsParam: Option<string>, exchangesParam: Option<string>,
                   fetch: (string, seq<string>) -> AdapterOutcome, now: int)
    ensures var r := FundingResponse(assetsParam, exchangesParam, fetch, now);
      r.Ok? ==> (!r.meta.stale && r.meta.failedExchanges == 0
        && r.data == Merge(Tasks(r.meta.exchanges, r.meta.assets, fetch)))
  {
    var assets := ValidAssets(RequestList(assetsParam, Symbols.SupportedAssets));
    var exchanges := ValidExchanges(RequestList(exchangesParam, Symbols.SupportedExchanges));
    NoTaskFails(exchanges, assets, fetch);
  }

  /** When some task is rejected, every merged ticker is marked stale, whichever venue it came from. */
  lemma RejectionMarksEverything(assets: seq<string>, exchanges: seq<string>, results: seq<Settled>, now: int)
    requires exists i :: 0 <= i < |results| && results[i].Rejected?
    ensures var r := Respond(assets, exchanges, results, now);
      r.meta.stale && r.meta.failedExchanges >= 1
      && forall t :: t in r.data ==> t.stale
  {
  }

  /** Every settled task is counted once: as a fulfilled list or as a failed venue. */
  lemma {:induction false} FulfilledPlusFailed(results: seq<Settled>)
    ensures |FulfilledValues(results)| + FailedCount(results) == |results|
  {
    if results != [] {
      FulfilledPlusFailed(results[1..]);
    }
  }

  lemma {:induction false} FulfilledValuesAppend(a: seq<Settled>, b: seq<Settled>)
    ensures FulfilledValues(a + b) == FulfilledValues(a) + FulfilledValues(b)
  {
    if a == [] {
      assert a + b == b;
    } else {
      assert (a + b)[0] == a[0];
      assert (a + b)[1..] == a[1..] + b;
      FulfilledValuesAppend(a[1..], b);
    }
  }

  lemma {:induction false} PresentAppend(a: seq<Option<FundingTicker>>, b: seq<Option<FundingTicker>>)
    ensures Present(a + b) == Present(a) + Present(b)
  {
    if a == [] {
      assert a + b == b;
    } else {
      assert (a + b)[0] == a[0];
      assert (a + b)[1..] == a[1..] + b;
      PresentAppend(a[1..], b);
    }
  }

  lemma {:induction false} TasksAppend(a: seq<string>, b: seq<string>, assets: seq<string>,
                                       fetch: (string, seq<string>) -> AdapterOutcome)
    ensures Tasks(a + b, assets, fetch) == Tasks(a, assets, fetch) + Tasks(b, assets, fetch)
  {
    if a == [] {
      assert a + b == b;
    } else {
      assert (a + b)[0] == a[0];
      assert (a + b)[1..] == a[1..] + b;
      TasksAppend(a[1..], b, assets, fetch);
    }
  }

  /**
   * The merge keeps venue order: asking for the venues `a` then `b` gives
   * `a`'s tickers followed by `b`'s.
   */
  lemma MergeInVenueOrder(a: seq<string>, b: seq<string>, assets: seq<string>,
                          fetch: (string, seq<string>) -> AdapterOutcome)
    ensures Merge(Tasks(a + b, assets, fetch)) == Merge(Tasks(a, assets, fetch)) + Merge(Tasks(b, assets, fetch))
  {
    TasksAppend(a, b, assets, fetch);
    FulfilledValuesAppend(Tasks(a, assets, fetch), Tasks(b, assets, fetch));
    ConcatAppend(FulfilledValues(Tasks(a, assets, fetch)), FulfilledValues(Tasks(b, assets, fetch)));
    PresentAppend(Concat(FulfilledValues(Tasks(a, assets, fetch))), Concat(FulfilledValues(Tasks(b, assets, fetch))));
  }

  /** One supported venue contributes exactly the present tickers its adapter returned. */
  lemma MergeOneVenue(exchange: string, assets: seq<string>, fetch: (string, seq<string>) -> AdapterOutcome)
    requires exchange in Symbols.SupportedExchanges
    ensures Merge(Tasks([exchange], assets, fetch)) ==
      if fetch(exchange, assets).Returned? then Present(fetch(exchange, assets).entries) else []
  {
    var t := Task(exchange, assets, fetch);
    assert Tasks([exchange], assets, fetch) == [t];
    assert FulfilledValues([t]) == [t.value];
    assert Concat([t.value]) == t.value;
  }

  /**
   * A ticker is in the merge exactly when one of the venues' adapters
   * returned it: nothing is invented and, the adapters' errors aside,
   * nothing is lost.
   */
  lemma {:induction false} MergeMembers(exchanges: seq<string>, assets: seq<string>,
                                        fetch: (string, seq<string>) -> AdapterOutcome, t: FundingTicker)
    requires forall i :: 0 <= i < |exchanges| ==> exchanges[i] in Symbols.SupportedExchanges
    ensures t in Merge(Tasks(exchanges, assets, fetch)) <==>
      exists i :: 0 <= i < |exchanges| && fetch(exchanges[i], assets).Returned?
        && Some(t) in fetch(exchanges[i], assets).entries
  {
    if exchanges != [] {
      var e := exchanges[0];
      var rest := exchanges[1..];
      assert exchanges == [e] + rest;
      MergeInVenueOrder([e], rest, assets, fetch);
      MergeOneVenue(e, assets, fetch);
      MergeMembers(rest, assets, fetch, t);
      if exists i :: 0 <= i < |exchanges| && fetch(exchanges[i], assets).Returned?
           && Some(t) in fetch(exchanges[i], assets).entries {
        var i :| 0 <= i < |exchanges| && fetch(exchanges[i], assets).Returned?
           && Some(t) in fetch(exchanges[i], assets).entries;
        if i > 0 {
          assert rest[i - 1] == exchanges[i];
        }
      }
      if t in Merge(Tasks(rest, assets, fetch)) {
        var i :| 0 <= i < |rest| && fetch(rest[i], assets).Returned? && Some(t) in fetch(rest[i], assets).entries;
        assert exchanges[i + 1] == rest[i];
      }
    }
  }
}
