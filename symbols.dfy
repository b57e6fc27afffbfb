/**
 * Venue symbol formats and their normalisation to a base/quote pair
 * (src/lib/symbols.ts).
 */
module Symbols {
  import opened Wrappers

  /** `{ base, quote }`. */
  datatype Pair = Pair(base: string, quote: string)

  /** `map[key]` as an optional value. */
  function Get<K, V>(m: map<K, V>, key: K): Option<V> {
    if key in m then Some(m[key]) else None
  }

  /** `SYMBOL_MAP`: the known venue symbols. */
  const SymbolMap: map<string, Pair> := map[
    // Binance
    "BTCUSDT" := Pair("BTC", "USDT"),
    "ETHUSDT" := Pair("ETH", "USDT"),
    "SOLUSDT" := Pair("SOL", "USDT"),
    "HYPEUSDT" := Pair("HYPE", "USDT"),
    // Bybit
    "BTCUSDT_BYBIT" := Pair("BTC", "USDT"),
    "ETHUSDT_BYBIT" := Pair("ETH", "USDT"),
    "SOLUSDT_BYBIT" := Pair("SOL", "USDT"),
    "HYPEUSDT_BYBIT" := Pair("HYPE", "USDT"),
    // Hyperliquid
    "BTC_HYPER" := Pair("BTC", "USDT"),
    "ETH_HYPER" := Pair("ETH", "USDT"),
    "SOL_HYPER" := Pair("SOL", "USDT"),
    "HYPE_HYPER" := Pair("HYPE", "USDT"),
    // Lighter
    "BTC_LIGHTER" := Pair("BTC", "USDT"),
    "ETH_LIGHTER" := Pair("ETH", "USDT"),
    "SOL_LIGHTER" := Pair("SOL", "USDT"),
    "HYPE_LIGHTER" := Pair("HYPE", "USDT"),
    // Extended
    "BTC-USD" := Pair("BTC", "USD"),
    "ETH-USD" := Pair("ETH", "USD"),
    "SOL-USD" := Pair("SOL", "USD"),
    "HYPE-USD" := Pair("HYPE", "USD"),
    // Aster
    "BTCUSDT_ASTER" := Pair("BTC", "USDT"),
    "ETHUSDT_ASTER" := Pair("ETH", "USDT"),
    "SOLUSDT_ASTER" := Pair("SOL", "USDT"),
    "HYPEUSDT_ASTER" := Pair("HYPE", "USDT")
  ]

  const SupportedAssets: seq<string> := ["BTC", "ETH", "SOL", "HYPE"]
  const SupportedExchanges: seq<string> := ["binance", "bybit", "hyperliquid", "lighter", "extended", "aster"]

  /** Upper-casing of one character (ASCII letters only). */
  function UpperChar(c: char): char {
    if 'a' <= c <= 'z' then (c as int - 32) as char else c
  }

  /** `toUpperCase()`. */
  function ToUpper(s: string): (r: string)
    ensures |r| == |s|
    ensures forall i :: 0 <= i < |s| ==> r[i] == UpperChar(s[i])
  {
    seq(|s|, i requires 0 <= i < |s| => UpperChar(s[i]))
  }

  predicate IsUpperLetters(s: string) {
    forall i :: 0 <= i < |s| ==> 'A' <= s[i] <= 'Z'
  }

  /** Upper-casing is idempotent, and leaves upper-case letters alone. */
  lemma ToUpperIdempotent(s: string)
    ensures ToUpper(ToUpper(s)) == ToUpper(s)
    ensures IsUpperLetters(s) ==> ToUpper(s) == s
  {
  }

  /** `/^([A-Z]+)USDT$/`: the captured group, if the whole string matches. */
  function MatchUsdt(s: string): (r: Option<string>)
    ensures r.Some? <==> |s| > 4 && s[|s| - 4..] == "USDT" && IsUpperLetters(s[..|s| - 4])
    ensures r.Some? ==> |r.value| > 0 && r.value + "USDT" == s
  {
    if |s| > 4 && s[|s| - 4..] == "USDT" && IsUpperLetters(s[..|s| - 4]) then
      assert s[..|s| - 4] + s[|s| - 4..] == s;
      Some(s[..|s| - 4])
    else None
  }

  /** The text before the first `sep` (all of `s` if there is none). */
  function Before(s: string, sep: char): (r: string)
    ensures sep !in r
    ensures r <= s
  {
    if s == [] || s[0] == sep then [] else [s[0]] + Before(s[1..], sep)
  }

  /** The text after the first `sep` (empty if there is none). */
  function After(s: string, sep: char): (r: string)
    ensures sep in s ==> s == Before(s, sep) + [sep] + r
  {
    if s == [] then []
    else if s[0] == sep then s[1..]
    else After(s[1..], sep)
  }

  /** `const [base, quote] = s.split('-')` for an `s` that contains '-'. */
  function SplitPair(s: string): (p: Pair)
    requires '-' in s
    ensures s == p.base + "-" + After(s, '-')
    ensures '-' !in p.base && '-' !in p.quote
    ensures p.quote <= After(s, '-')
  {
    Pair(Before(s, '-'), Before(After(s, '-'), '-'))
  }

  /** `normalizeSymbol`. */
  function NormalizeSymbol(symbol: string, exchange: string): (r: Option<Pair>)
    ensures ToUpper(symbol) in SymbolMap ==> r == Some(SymbolMap[ToUpper(symbol)])
    ensures exchange == "hyperliquid" || exchange == "lighter" ==> r.Some?
    ensures r.None? ==> ToUpper(symbol) !in SymbolMap && MatchUsdt(ToUpper(symbol)).None?
    ensures r.Some? && ToUpper(symbol) !in SymbolMap && (exchange == "hyperliquid" || exchange == "lighter") ==>
      r.value == Pair(ToUpper(symbol), "USDT")
    ensures (r.Some? && ToUpper(symbol) !in SymbolMap && exchange != "hyperliquid" && exchange != "lighter"
             && !(exchange == "extended" && '-' in ToUpper(symbol))) ==>
      r.value.quote == "USDT" && r.value.base + "USDT" == ToUpper(symbol)
  {
    var normalized := ToUpper(symbol);
    if normalized in SymbolMap then Some(SymbolMap[normalized])
    else if exchange == "extended" && '-' in normalized then Some(SplitPair(normalized))
    else if exchange == "hyperliquid" || exchange == "lighter" then Some(Pair(normalized, "USDT"))
    else
      match MatchUsdt(normalized)
      case Some(base) => Some(Pair(base, "USDT"))
      case None => None
  }

  /**
   * `getSymbolForExchange`: `BASEUSDT` for binance, bybit, aster and any
   * unknown venue, the bare base for hyperliquid and lighter, `BASE-USD` for
   * extended.
   */
  function SymbolForExchange(base: string, exchange: string): (s: string)
    ensures exchange == "hyperliquid" || exchange == "lighter" ==> s == base
    ensures exchange == "extended" ==> s == base + "-USD"
    ensures exchange !in {"hyperliquid", "lighter", "extended"} ==> s == base + "USDT"
  {
    match exchange
    case "binance" => base + "USDT"
    case "bybit" => base + "USDT"
    case "aster" => base + "USDT"
    case "hyperliquid" => base
    case "lighter" => base
    case "extended" => base + "-USD"
    case _ => base + "USDT"
  }

  /** The quote currency a venue's symbols normalise to. */
  function QuoteFor(exchange: string): string {
    if exchange == "extended" then "USD" else "USDT"
  }

  /**
   * Round trip over the supported grid: every supported asset's symbol on
   * every supported venue normalises back to that asset, quoted in USD on
   * extended and in USDT elsewhere.
   */
  lemma SupportedRoundTrip(asset: string, exchange: string)
    requires asset in SupportedAssets && exchange in SupportedExchanges
    ensures NormalizeSymbol(SymbolForExchange(asset, exchange), exchange) == Some(Pair(asset, QuoteFor(exchange)))
  {
    SupportedSymbolUpper(asset, exchange);
    if exchange == "hyperliquid" || exchange == "lighter" {
      BareAssetNotKey(asset);
    } else {
      SupportedKeys(asset);
    }
  }

  /** The supported venue symbols are already upper case. */
  lemma SupportedSymbolUpper(asset: string, exchange: string)
    requires asset in SupportedAssets
    ensures ToUpper(SymbolForExchange(asset, exchange)) == SymbolForExchange(asset, exchange)
  {
    var s := SymbolForExchange(asset, exchange);
    assert forall i :: 0 <= i < |s| ==> !('a' <= s[i] <= 'z');
  }

  /** A bare supported asset is not a table key. */
  lemma BareAssetNotKey(asset: string)
    requires asset in SupportedAssets
    ensures asset !in SymbolMap
  {
    assert |asset| <= 4;
  }

  /** The supported assets' USDT and dash-USD symbols are all table keys. */
  lemma SupportedKeys(asset: string)
    requires asset in SupportedAssets
    ensures Get(SymbolMap, asset + "USDT") == Some(Pair(asset, "USDT"))
    ensures Get(SymbolMap, asset + "-USD") == Some(Pair(asset, "USD"))
  {
    if asset == "BTC" {
      assert asset + "USDT" == "BTCUSDT" && asset + "-USD" == "BTC-USD";
      BtcRows();
    } else if asset == "ETH" {
      assert asset + "USDT" == "ETHUSDT" && asset + "-USD" == "ETH-USD";
      EthRows();
    } else if asset == "SOL" {
      assert asset + "USDT" == "SOLUSDT" && asset + "-USD" == "SOL-USD";
      SolRows();
    } else {
      assert asset + "USDT" == "HYPEUSDT" && asset + "-USD" == "HYPE-USD";
      HypeRows();
    }
  }

  // The table rows of each supported asset.

  lemma BtcRows()
    ensures Get(SymbolMap, "BTCUSDT") == Some(Pair("BTC", "USDT"))
    ensures Get(SymbolMap, "BTC-USD") == Some(Pair("BTC", "USD"))
  {
  }

  lemma EthRows()
    ensures Get(SymbolMap, "ETHUSDT") == Some(Pair("ETH", "USDT"))
    ensures Get(SymbolMap, "ETH-USD") == Some(Pair("ETH", "USD"))
  {
  }

  lemma SolRows()
    ensures Get(SymbolMap, "SOLUSDT") == Some(Pair("SOL", "USDT"))
    ensures Get(SymbolMap, "SOL-USD") == Some(Pair("SOL", "USD"))
  {
  }

  lemma HypeRows()
    ensures Get(SymbolMap, "HYPEUSDT") == Some(Pair("HYPE", "USDT"))
    ensures Get(SymbolMap, "HYPE-USD") == Some(Pair("HYPE", "USD"))
  {
  }

  /** `normalizeSymbol` ignores letter case. */
  lemma NormalizeIgnoresCase(symbol: string, exchange: string)
    ensures NormalizeSymbol(symbol, exchange) == NormalizeSymbol(ToUpper(symbol), exchange)
  {
    ToUpperIdempotent(symbol);
  }

  /** A table hit wins whatever the venue. */
  lemma TableHitWins(symbol: string, exchange: string)
    requires ToUpper(symbol) in SymbolMap
    ensures NormalizeSymbol(symbol, exchange) == Some(SymbolMap[ToUpper(symbol)])
  {
  }

  /** For example "btc-usd" is BTC/USD even when it is asked of binance. */
  lemma DashedSymbolOnBinance()
    ensures NormalizeSymbol("btc-usd", "binance") == Some(Pair("BTC", "USD"))
  {
    assert ToUpper("btc-usd") == "BTC-USD";
  }

  /**
   * Hyperliquid and lighter never yield null: an unknown symbol becomes its
   * upper-cased self quoted in USDT.
   */
  lemma BaseOnlyVenuesAlwaysNormalise(symbol: string, exchange: string)
    requires exchange == "hyperliquid" || exchange == "lighter"
    ensures NormalizeSymbol(symbol, exchange).Some?
    ensures ToUpper(symbol) !in SymbolMap ==>
      NormalizeSymbol(symbol, exchange) == Some(Pair(ToUpper(symbol), "USDT"))
  {
  }

  /**
   * On extended an unknown symbol with a '-' splits into its first two
   * hyphen-separated fields.
   */
  lemma ExtendedSplitsOnHyphen(symbol: string)
    requires ToUpper(symbol) !in SymbolMap && '-' in ToUpper(symbol)
    ensures var p := NormalizeSymbol(symbol, "extended");
      && p.Some?
      && ToUpper(symbol) == p.value.base + "-" + After(ToUpper(symbol), '-')
      && '-' !in p.value.base && '-' !in p.value.quote
      && p.value.quote <= After(ToUpper(symbol), '-')
  {
  }

  /**
   * Everywhere else an unknown symbol is recognised only as one or more
   * letters A-Z followed by "USDT", the letters being the base.
   */
  lemma UsdtPatternOtherwise(symbol: string, exchange: string)
    requires ToUpper(symbol) !in SymbolMap
    requires exchange != "hyperliquid" && exchange != "lighter"
    requires !(exchange == "extended" && '-' in ToUpper(symbol))
    ensures var u := ToUpper(symbol);
      NormalizeSymbol(symbol, exchange).Some? <==>
        |u| > 4 && u[|u| - 4..] == "USDT" && IsUpperLetters(u[..|u| - 4])
    ensures NormalizeSymbol(symbol, exchange).Some? ==>
      var p := NormalizeSymbol(symbol, exchange).value;
      p.quote == "USDT" && |p.base| > 0 && IsUpperLetters(p.base) && p.base + "USDT" == ToUpper(symbol)
  {
  }

  /** A digit defeats the pattern: "1000PEPEUSDT" is not recognised on binance. */
  lemma DigitsAreRejected()
    ensures NormalizeSymbol("1000PEPEUSDT", "binance") == None
  {
    var u := ToUpper("1000PEPEUSDT");
    assert u == "1000PEPEUSDT";
    assert !IsUpperLetters(u[..|u| - 4]) by { assert u[0] == '1'; }
  }
}
