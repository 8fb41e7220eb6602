/** The alert task: compare the first and the last sample of an asset's
    trailing window and record an alert when the percent change reaches the
    threshold. */
module AlertTask {
  import opened Wrappers
  import opened Seqs
  import opened Text
  import opened Config
  import opened TimeSeries

  /** `_settings`: ALERT_WINDOW_MINUTES (default 60) and ALERT_THRESHOLD_PCT
      (default 5). */
  function Settings(env: Env): (int, real) {
    (env.alertWindowMinutes.GetOr(60), env.alertThresholdPct.GetOr(5.0))
  }

  /** The window in effect: the argument when given, else the value from
      `_settings`. */
  function EffectiveWindow(windowMinutes: Option<int>, env: Env): int {
    windowMinutes.GetOr(Settings(env).0)
  }

  /** The threshold in effect: the argument when given, else the value from
      `_settings`. */
  function EffectiveThreshold(thresholdPct: Option<real>, env: Env): real {
    thresholdPct.GetOr(Settings(env).1)
  }

  lemma EffectiveSettingsResolution(windowMinutes: Option<int>, thresholdPct: Option<real>, env: Env)
    ensures Settings(Unset) == (60, 5.0)
    ensures windowMinutes.Some? ==> EffectiveWindow(windowMinutes, env) == windowMinutes.value
    ensures thresholdPct.Some? ==> EffectiveThreshold(thresholdPct, env) == thresholdPct.value
    ensures windowMinutes.None? ==> EffectiveWindow(windowMinutes, env) == env.alertWindowMinutes.GetOr(60)
    ensures thresholdPct.None? ==> EffectiveThreshold(thresholdPct, env) == env.alertThresholdPct.GetOr(5.0)
  {
  }

  /** `now - timedelta(minutes=window)`, in seconds. */
  function WindowStart(now: int, windowMinutes: int): int {
    now - windowMinutes * 60
  }

  /** `WHERE asset_id = id AND ts >= start`. */
  function InWindow(id: nat, start: int): Sample -> bool {
    (s: Sample) => s.assetId == id && s.ts >= start
  }

  /** The rows `compute_alerts` reads: the asset's samples at or after `start`,
      oldest first. */
  function WindowRows(samples: seq<Sample>, id: nat, start: int): seq<Sample> {
    Sort(Filter(samples, InWindow(id, start)), ByTs())
  }

  /** The window has one row per in-window sample of the asset. */
  lemma WindowRowsCount(samples: seq<Sample>, id: nat, start: int)
    ensures |WindowRows(samples, id, start)| == Count(samples, InWindow(id, start))
  {
    SortMembers(Filter(samples, InWindow(id, start)), ByTs());
  }

  /** The window holds exactly the asset's samples with `ts >= start`. */
  lemma WindowRowsMembers(samples: seq<Sample>, id: nat, start: int)
    ensures forall s :: s in WindowRows(samples, id, start) <==> s in samples && s.assetId == id && s.ts >= start
  {
    SortMembers(Filter(samples, InWindow(id, start)), ByTs());
  }

  /** With one sample per (asset, ts), the window is strictly increasing in
      `ts`: its first row is the earliest in-window sample and its last row
      the latest. */
  lemma WindowRowsIncreasing(samples: seq<Sample>, id: nat, start: int)
    requires UniqueBy(samples, SampleKey)
    ensures var rows := WindowRows(samples, id, start);
      forall i, j :: 0 <= i < j < |rows| ==> rows[i].ts < rows[j].ts
  {
    assert forall x :: InWindow(id, start)(x) ==> x.assetId == id;
    ByTsStrict(samples, InWindow(id, start), id);
    var rows := WindowRows(samples, id, start);
    assert rows == Sort(Filter(samples, InWindow(id, start)), ByTs());
  }

  function Abs(x: real): real { if x < 0.0 then -x else x }

  /** The signed percent change from `first` to `last`. */
  function ChangePct(first: real, last: real): real
    requires first != 0.0
  {
    (last - first) / first * 100.0
  }

  /** The decision over the window's rows: no alert for fewer than two rows
      or a zero baseline; otherwise the change when its magnitude reaches the
      threshold (inclusive). */
  function Evaluate(rows: seq<Sample>, threshold: real): (r: Option<real>)
    ensures r.Some? ==> |rows| >= 2 && rows[0].price != 0.0 && Abs(r.value) >= threshold
  {
    if |rows| < 2 then None
    else if rows[0].price == 0.0 then None
    else
      var change := ChangePct(rows[0].price, rows[|rows| - 1].price);
      if Abs(change) >= threshold then Some(change) else None
  }

  /** The alert recorded for a known asset: evaluated over the window that
      ends at `now`, stamped with `now` and the window. */
  function AlertFor(samples: seq<Sample>, id: nat, window: int, threshold: real, now: int): (r: Option<Alert>)
    ensures r.Some? ==> r.value.assetId == id && r.value.triggeredAt == now && r.value.windowMinutes == window
    ensures r.Some? ==> |WindowRows(samples, id, WindowStart(now, window))| >= 2 && Abs(r.value.changePct) >= threshold
  {
    match Evaluate(WindowRows(samples, id, WindowStart(now, window)), threshold)
    case None => None
    case Some(change) => Some(Alert(id, now, window, change))
  }

  /** The alert `compute_alerts` records for this store state, if any. */
  function Outcome(assets: seq<Asset>, samples: seq<Sample>, symbol: string,
                   windowMinutes: Option<int>, thresholdPct: Option<real>, env: Env, now: int): (r: Option<Alert>)
    ensures r.Some? ==> FindAsset(assets, Upper(symbol)).Some?
    ensures r.Some? ==> r.value.assetId == FindAsset(assets, Upper(symbol)).value.id
    ensures r.Some? ==> r.value.triggeredAt == now && r.value.windowMinutes == EffectiveWindow(windowMinutes, env)
    ensures r.Some? ==> Abs(r.value.changePct) >= EffectiveThreshold(thresholdPct, env)
  {
    match FindAsset(assets, Upper(symbol))
    case None => None
    case Some(asset) =>
      AlertFor(samples, asset.id, EffectiveWindow(windowMinutes, env), EffectiveThreshold(thresholdPct, env), now)
  }

  /** An unknown symbol (after upper-casing) never produces an alert. */
  lemma UnknownAssetNoAlert(assets: seq<Asset>, samples: seq<Sample>, symbol: string,
                            windowMinutes: Option<int>, thresholdPct: Option<real>, env: Env, now: int)
    requires forall a :: a in assets ==> a.symbol != Upper(symbol)
    ensures Outcome(assets, samples, symbol, windowMinutes, thresholdPct, env, now) == None
  {
  }

  /** Fewer than two samples of the asset in the window: no alert. */
  lemma FewSamplesNoAlert(samples: seq<Sample>, id: nat, window: int, threshold: real, now: int)
    requires Count(samples, InWindow(id, WindowStart(now, window))) < 2
    ensures AlertFor(samples, id, window, threshold, now) == None
  {
    WindowRowsCount(samples, id, WindowStart(now, window));
  }

  /** The decision over at least two rows: a zero baseline gives no alert;
      otherwise an alert exactly when |change| >= threshold, carrying the
      signed change from the first row to the last. */
  lemma AlertDecision(rows: seq<Sample>, threshold: real)
    requires |rows| >= 2
    ensures rows[0].price == 0.0 ==> Evaluate(rows, threshold) == None
    ensures rows[0].price != 0.0 ==>
      var change := ChangePct(rows[0].price, rows[|rows| - 1].price);
      (Evaluate(rows, threshold).Some? <==> Abs(change) >= threshold)
      && (Evaluate(rows, threshold).Some? ==> Evaluate(rows, threshold).value == change)
  {
  }

  /** The threshold is inclusive: a change of exactly the threshold alerts. */
  lemma ThresholdInclusive(rows: seq<Sample>, threshold: real)
    requires |rows| >= 2 && rows[0].price != 0.0
    requires Abs(ChangePct(rows[0].price, rows[|rows| - 1].price)) == threshold
    ensures Evaluate(rows, threshold) == Some(ChangePct(rows[0].price, rows[|rows| - 1].price))
  {
  }

  /** A recorded change always has at least the threshold's magnitude. */
  lemma EvaluateReachesThreshold(rows: seq<Sample>, threshold: real)
    ensures Evaluate(rows, threshold).Some? ==> Abs(Evaluate(rows, threshold).value) >= threshold
  {
  }

  /** `AlertFor` read off the window's rows, branch by branch. */
  lemma AlertForRows(samples: seq<Sample>, id: nat, window: int, threshold: real, now: int, rows: seq<Sample>)
    requires rows == WindowRows(samples, id, WindowStart(now, window))
    ensures |rows| < 2 ==> AlertFor(samples, id, window, threshold, now) == None
    ensures |rows| >= 2 && rows[0].price == 0.0 ==> AlertFor(samples, id, window, threshold, now) == None
    ensures |rows| >= 2 && rows[0].price != 0.0 ==>
      var change := ChangePct(rows[0].price, rows[|rows| - 1].price);
      AlertFor(samples, id, window, threshold, now) == if Abs(change) >= threshold then Some(Alert(id, now, window, change)) else None
  {
  }

  /** `compute_alerts`: the store gains the alert `Outcome` describes, or
      nothing; the result is 1 or 0 accordingly; samples and assets are not
      touched. */
  method ComputeAlerts(db: Store, symbol: string, windowMinutes: Option<int>, thresholdPct: Option<real>,
                       env: Env, now: int) returns (created: nat)
    requires db.Valid()
    modifies db
    ensures db.Valid()
    ensures db.assets == old(db.assets) && db.samples == old(db.samples)
    ensures var o := Outcome(old(db.assets), old(db.samples), symbol, windowMinutes, thresholdPct, env, now);
      && db.alerts == old(db.alerts) + (if o.Some? then [o.value] else [])
      && created == (if o.Some? then 1 else 0)
  {
    var symbolU := Upper(symbol);
    var window := EffectiveWindow(windowMinutes, env);
    var threshold := EffectiveThreshold(thresholdPct, env);
    var asset := FindAsset(db.assets, symbolU);
    if asset.None? {
      assert db.alerts + [] == db.alerts;
      return 0;
    }
    var rows := WindowRows(db.samples, asset.value.id, WindowStart(now, window));
    AlertForRows(db.samples, asset.value.id, window, threshold, now, rows);
    if |rows| < 2 {
      assert db.alerts + [] == db.alerts;
      return 0;
    }
    var first := rows[0];
    var last := rows[|rows| - 1];
    if first.price == 0.0 {
      assert db.alerts + [] == db.alerts;
      return 0;
    }
    var change := ChangePct(first.price, last.price);
    if Abs(change) >= threshold {
      db.FoundAssetExists(symbolU);
      db.AddAlert(Alert(asset.value.id, now, window, change));
      return 1;
    }
    assert db.alerts + [] == db.alerts;
    return 0;
  }

  /** Two in-window samples of the asset, in ts order, are the whole window. */
  lemma TwoSampleWindow(a: Sample, b: Sample, id: nat, start: int)
    requires a.assetId == id && b.assetId == id
    requires start <= a.ts < b.ts
    ensures WindowRows([a, b], id, start) == [a, b]
  {
    assert [a, b][1..] == [b];
    assert Filter([a, b], InWindow(id, start)) == [a, b];
    assert Sort([b], ByTs()) == [b];
  }

  /** The registry of the alert scenarios: BTC only. */
  function BtcOnly(): seq<Asset> { [Asset(1, "BTC", None)] }

  /** With the defaults, BTC's samples fifty and five minutes ago alert
      exactly when their change reaches 5%. */
  lemma DefaultsTwoSamples(p0: real, p1: real, now: int)
    requires p0 != 0.0
    ensures var change := ChangePct(p0, p1);
      Outcome(BtcOnly(), [Sample(1, now - 3000, p0), Sample(1, now - 300, p1)], "BTC", None, None, Unset, now)
      == if Abs(change) >= 5.0 then Some(Alert(1, now, 60, change)) else None
  {
    var samples := [Sample(1, now - 3000, p0), Sample(1, now - 300, p1)];
    UpperOfUpper("BTC");
    assert FindAsset(BtcOnly(), "BTC") == Some(Asset(1, "BTC", None));
    assert EffectiveWindow(None, Unset) == 60 && EffectiveThreshold(None, Unset) == 5.0;
    TwoSampleWindow(samples[0], samples[1], 1, WindowStart(now, 60));
    AlertForRows(samples, 1, 60, 5.0, now, samples);
  }

  /** With the defaults (60 minutes, 5%): 100.0 fifty minutes ago and 106.0
      five minutes ago record one alert of +6% over 60 minutes; 100.0 then
      104.0 records none. */
  lemma AlertScenarios(now: int)
    ensures Outcome(BtcOnly(), [Sample(1, now - 3000, 100.0), Sample(1, now - 300, 106.0)], "BTC", None, None, Unset, now)
         == Some(Alert(1, now, 60, 6.0))
    ensures Outcome(BtcOnly(), [Sample(1, now - 3000, 100.0), Sample(1, now - 300, 104.0)], "BTC", None, None, Unset, now)
         == None
  {
    DefaultsTwoSamples(100.0, 106.0, now);
    DefaultsTwoSamples(100.0, 104.0, now);
    assert ChangePct(100.0, 106.0) == 6.0;
    assert ChangePct(100.0, 104.0) == 4.0;
  }
}
