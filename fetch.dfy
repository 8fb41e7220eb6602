/** The price fetch task: map the symbol to its CoinGecko id, ask for the USD
    price once, and on success store it as the asset's sample at `now`. The
    network reply is an input; the counters are plain per-symbol tallies. */
module PriceFetch {
  import opened Wrappers
  import opened Text
  import opened TimeSeries

  /** `_coingecko_id_for_symbol`. */
  function CoingeckoId(symbol: string): (r: Option<string>)
    ensures r.Some? ==> r.value == "bitcoin" || r.value == "ethereum"
  {
    var sym := Upper(symbol);
    if sym == "BTC" then Some("bitcoin") else if sym == "ETH" then Some("ethereum") else None
  }

  /** Only BTC and ETH are mapped, in any case. */
  lemma CoingeckoIdCases(symbol: string)
    ensures CoingeckoId(symbol) == CoingeckoId(Upper(symbol))
    ensures CoingeckoId(symbol) == Some("bitcoin") <==> Upper(symbol) == "BTC"
    ensures CoingeckoId(symbol) == Some("ethereum") <==> Upper(symbol) == "ETH"
    ensures CoingeckoId(symbol).None? <==> Upper(symbol) != "BTC" && Upper(symbol) != "ETH"
  {
    UpperIdempotent(symbol);
  }

  /** What one `requests.get` for a CoinGecko id gives back: a response
      with its status and the `usd` field of the id's entry, if present and
      numeric, or a transport error. */
  datatype Reply = Response(status: int, usd: Option<real>) | NetworkError

  /** The statuses `raise_for_status` raises for: client errors (4xx) and
      server errors (5xx). */
  predicate IsErrorStatus(status: int) {
    400 <= status < 600
  }

  datatype FetchError =
    | Unsupported          // ValueError("unsupported asset symbol")
    | HttpStatus(code: int) // raise_for_status
    | Transport            // requests.RequestException
    | BadPayload           // missing or non-numeric data[id]["usd"]
    | DuplicateSample      // the unique (asset_id, ts) constraint refused the commit

  /** A call of `_get_price_usd`: its result and the ids it requested. */
  datatype Attempt = Attempt(result: Result<real, FetchError>, requested: seq<string>)

  /** `_get_price_usd`: an unmapped symbol fails before any request;
      otherwise one request, whose error status or missing field is the
      failure. There is no retry. `requested` is written by this body: it
      records the code's single `requests.get` call
      (worker/tasks/prices.py:37), so "one request" in the lemmas below
      restates that structure rather than deriving it. */
  function GetPriceUsd(symbol: string, request: string -> Reply): (a: Attempt)
    ensures CoingeckoId(symbol).None? <==> a.requested == []
    ensures CoingeckoId(symbol).None? ==> a.result == Failure(Unsupported)
    ensures CoingeckoId(symbol).Some? ==> a.requested == [CoingeckoId(symbol).value]
    ensures a.result.Success? <==>
      CoingeckoId(symbol).Some? && request(CoingeckoId(symbol).value).Response?
      && !IsErrorStatus(request(CoingeckoId(symbol).value).status) && request(CoingeckoId(symbol).value).usd.Some?
    ensures a.result.Success? ==> a.result.value == request(CoingeckoId(symbol).value).usd.value
  {
    match CoingeckoId(symbol)
    case None => Attempt(Failure(Unsupported), [])
    case Some(id) =>
      var reply := request(id);
      var result :=
        if reply.NetworkError? then Failure(Transport)
        else if IsErrorStatus(reply.status) then Failure(HttpStatus(reply.status))
        else if reply.usd.None? then Failure(BadPayload)
        else Success(reply.usd.value);
      Attempt(result, [id])
  }

  /** The count a labelled counter shows for `symbol`. */
  function CountOf(m: map<string, nat>, symbol: string): nat {
    if symbol in m then m[symbol] else 0
  }

  /** `FETCH_SUCCESS` and `FETCH_FAILURE`, per upper-cased symbol. */
  class FetchCounters {
    var success: map<string, nat>
    var failure: map<string, nat>

    constructor ()
      ensures success == map[] && failure == map[]
    {
      success, failure := map[], map[];
    }

    method IncSuccess(symbol: string)
      modifies this
      ensures failure == old(failure)
      ensures success == old(success)[symbol := CountOf(old(success), symbol) + 1]
    {
      success := success[symbol := CountOf(success, symbol) + 1];
    }

    method IncFailure(symbol: string)
      modifies this
      ensures success == old(success)
      ensures failure == old(failure)[symbol := CountOf(old(failure), symbol) + 1]
    {
      failure := failure[symbol := CountOf(failure, symbol) + 1];
    }
  }

  /** The persisting half of `fetch_price`: find or create the asset, store
      the price as its sample at `now`, and count a success; a sample already
      at `now` makes the commit fail, after the asset step, with nothing
      counted. */
  method RecordPrice(db: Store, counters: FetchCounters, sym: string, price: real, now: int)
    returns (r: Result<real, FetchError>)
    requires db.Valid()
    modifies db, counters
    ensures db.Valid() && db.alerts == old(db.alerts)
    ensures FindAsset(old(db.assets), sym).Some? ==> db.assets == old(db.assets)
    ensures FindAsset(old(db.assets), sym).None? ==> db.assets == old(db.assets) + [Asset(|old(db.assets)| + 1, sym, None)]
    ensures counters.failure == old(counters.failure)
    ensures var id := AssetIdFor(old(db.assets), sym);
      if HasSampleAt(old(db.samples), id, now) then
        r == Failure(DuplicateSample) && db.samples == old(db.samples) && counters.success == old(counters.success)
      else
        && r == Success(price)
        && db.samples == old(db.samples) + [Sample(id, now, price)]
        && counters.success == old(counters.success)[sym := CountOf(old(counters.success), sym) + 1]
  {
    var id := db.EnsureAsset(sym);
    var ok := db.InsertSample(id, now, price);
    if !ok {
      return Failure(DuplicateSample);
    }
    counters.IncSuccess(sym);
    return Success(price);
  }

  /** `fetch_price`: a failed fetch counts a failure for the upper-cased
      symbol and leaves the store alone; a fetched price is stored as the
      asset's sample at `now` (the asset is created first when missing), a
      success is counted and the price returned. A sample already at `now`
      makes the commit fail after the asset step, with nothing counted. */
  method FetchPrice(db: Store, counters: FetchCounters, symbol: string, request: string -> Reply, now: int)
    returns (r: Result<real, FetchError>)
    requires db.Valid()
    modifies db, counters
    ensures db.Valid() && db.alerts == old(db.alerts)
    ensures var sym := Upper(symbol);
      var attempt := GetPriceUsd(sym, request);
      && (attempt.result.Failure? ==>
            && r == attempt.result
            && db.assets == old(db.assets) && db.samples == old(db.samples)
            && counters.success == old(counters.success)
            && counters.failure == old(counters.failure)[sym := CountOf(old(counters.failure), sym) + 1])
      && (attempt.result.Success? ==>
            && (FindAsset(old(db.assets), sym).Some? ==> db.assets == old(db.assets))
            && (FindAsset(old(db.assets), sym).None? ==>
                  db.assets == old(db.assets) + [Asset(|old(db.assets)| + 1, sym, None)])
            && counters.failure == old(counters.failure))
    ensures var sym := Upper(symbol);
      var attempt := GetPriceUsd(sym, request);
      var id := AssetIdFor(old(db.assets), sym);
      attempt.result.Success? ==>
        if HasSampleAt(old(db.samples), id, now) then
          r == Failure(DuplicateSample) && db.samples == old(db.samples) && counters.success == old(counters.success)
        else
          && r == attempt.result
          && db.samples == old(db.samples) + [Sample(id, now, attempt.result.value)]
          && counters.success == old(counters.success)[sym := CountOf(old(counters.success), sym) + 1]
  {
    var sym := Upper(symbol);
    var attempt := GetPriceUsd(sym, request);
    if attempt.result.Failure? {
      counters.IncFailure(sym);
      return attempt.result;
    }
    r := RecordPrice(db, counters, sym, attempt.result.value, now);
  }

  /** An unmapped symbol such as DOGE fails as unsupported with no request. */
  lemma UnsupportedMakesNoRequest(request: string -> Reply)
    ensures GetPriceUsd("DOGE", request) == Attempt(Failure(Unsupported), [])
    ensures GetPriceUsd("doge", request) == Attempt(Failure(Unsupported), [])
  {
    assert Upper("DOGE") == "DOGE";
    assert Upper("doge") == "DOGE";
  }

  /** A 200 reply with `{"bitcoin": {"usd": 12345.67}}` gives that price
      from one request for "bitcoin"; a network error gives a failure. */
  lemma BitcoinReplies(request: string -> Reply)
    ensures request("bitcoin") == Response(200, Some(12345.67)) ==>
      GetPriceUsd("BTC", request) == Attempt(Success(12345.67), ["bitcoin"])
    ensures request("bitcoin") == NetworkError ==>
      GetPriceUsd("btc", request) == Attempt(Failure(Transport), ["bitcoin"])
  {
    assert Upper("BTC") == "BTC";
    assert Upper("btc") == "BTC";
  }

  /** A server error is not retried: a 5xx reply fails the fetch after the
      one recorded request, whatever a second request would have answered. */
  lemma ServerErrorNotRetried(request: string -> Reply)
    requires request("bitcoin").Response? && 500 <= request("bitcoin").status < 600
    ensures GetPriceUsd("BTC", request) == Attempt(Failure(HttpStatus(request("bitcoin").status)), ["bitcoin"])
  {
    assert Upper("BTC") == "BTC";
  }
}
