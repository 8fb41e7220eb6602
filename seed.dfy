/** The synthetic seeder: when an asset lacks history back to `now - hours`,
    fill the window with a deterministic random walk, one row per step,
    skipping rows the table already holds. */
module Seed {
  import opened Wrappers
  import opened Text
  import opened Config
  import opened TimeSeries

  const SecondsPerHour: int := 3600

  /** `_baseline_for_symbol`: the walk's starting price. */
  function BaselineForSymbol(symbol: string): (r: real)
    ensures r == 50000.0 || r == 2000.0 || r == 100.0
  {
    var sym := Upper(symbol);
    if sym == "BTC" then 50000.0 else if sym == "ETH" then 2000.0 else 100.0
  }

  /** The baseline ignores case, and the two listed symbols have their own. */
  lemma BaselineCases(symbol: string)
    ensures BaselineForSymbol(symbol) == BaselineForSymbol(Upper(symbol))
    ensures Upper(symbol) == "BTC" ==> BaselineForSymbol(symbol) == 50000.0
    ensures Upper(symbol) == "ETH" ==> BaselineForSymbol(symbol) == 2000.0
    ensures Upper(symbol) != "BTC" && Upper(symbol) != "ETH" ==> BaselineForSymbol(symbol) == 100.0
  {
    UpperIdempotent(symbol);
  }

  /** `sum(ord(c) for c in sym)`: the generator's seed. */
  function CodeSum(s: string): nat {
    if s == [] then 0 else s[0] as nat + CodeSum(s[1..])
  }

  /** `hours or env` / `interval_seconds or env`: an absent or zero argument
      falls back to the variable, and an unset variable to the default. */
  function OrFallback(arg: Option<int>, envValue: Option<int>, default: int): int {
    if arg.Some? && arg.value != 0 then arg.value else envValue.GetOr(default)
  }

  function SeedHours(hours: Option<int>, env: Env): int {
    OrFallback(hours, env.mockSeedHours, 168)
  }

  function SeedStep(intervalSeconds: Option<int>, env: Env): int {
    OrFallback(intervalSeconds, env.mockSeedIntervalSeconds, 300)
  }

  lemma SeedSettingsResolution(hours: Option<int>, intervalSeconds: Option<int>, env: Env)
    ensures SeedHours(None, Unset) == 168 && SeedHours(Some(0), Unset) == 168
    ensures SeedStep(None, Unset) == 300 && SeedStep(Some(0), Unset) == 300
    ensures hours.Some? && hours.value != 0 ==> SeedHours(hours, env) == hours.value
    ensures intervalSeconds.Some? && intervalSeconds.value != 0 ==> SeedStep(intervalSeconds, env) == intervalSeconds.value
    ensures (hours.None? || hours.value == 0) ==> SeedHours(hours, env) == env.mockSeedHours.GetOr(168)
    ensures (intervalSeconds.None? || intervalSeconds.value == 0) ==>
      SeedStep(intervalSeconds, env) == env.mockSeedIntervalSeconds.GetOr(300)
  {
  }

  /** One generated point. */
  datatype Point = Point(ts: int, price: real)

  function Max(a: real, b: real): real { if a >= b then a else b }

  /** `(rnd.random() - 0.5) * 0.001`, drawn once per series. */
  function Drift(draw: real): real { (draw - 0.5) * 0.001 }

  /** `(rnd.random() - 0.5) * 0.02`, drawn once per point. */
  function Noise(draw: real): real { (draw - 0.5) * 0.02 }

  /** One step of the walk, floored at 0.01. */
  function NextPrice(price: real, drift: real, draw: real): (r: real)
    ensures r >= 0.01
  {
    Max(0.01, price * (1.0 + drift + Noise(draw)))
  }

  /** The points `_gen_series` yields from time `t` on, where `price` is the
      walk's current value and `draws(k)` the `k`-th value of the generator
      (`draws(0)` went into the drift; point `k` uses `draws(k + 1)`). */
  function Series(t: int, end: int, step: int, price: real, drift: real, draws: nat -> real, k: nat): (r: seq<Point>)
    requires step > 0 || t > end
    ensures forall i :: 0 <= i < |r| ==> t <= r[i].ts <= end && r[i].price >= 0.01
    decreases if t <= end then end - t + 1 else 0
  {
    if t > end then []
    else
      var p := NextPrice(price, drift, draws(k + 1));
      [Point(t, p)] + Series(t + step, end, step, p, drift, draws, k + 1)
  }

  /** The points from time `t` lie in `[t, end]`, each `step` after the
      previous one, and every price is at least 0.01. */
  lemma {:induction false} SeriesShape(t: int, end: int, step: int, price: real, drift: real, draws: nat -> real, k: nat)
    requires step > 0 || t > end
    ensures var r := Series(t, end, step, price, drift, draws, k);
      && (r != [] ==> r[0].ts == t)
      && (forall i :: 0 <= i < |r| ==> t <= r[i].ts <= end && r[i].price >= 0.01)
      && (forall i :: 0 <= i < |r| - 1 ==> r[i + 1].ts == r[i].ts + step)
    decreases if t <= end then end - t + 1 else 0
  {
    if t <= end {
      var p := NextPrice(price, drift, draws(k + 1));
      SeriesShape(t + step, end, step, p, drift, draws, k + 1);
    }
  }

  /** The `i`-th point is at `t + i * step`. */
  lemma {:induction false} SeriesAt(t: int, end: int, step: int, price: real, drift: real, draws: nat -> real, k: nat, i: nat)
    requires step > 0 || t > end
    requires i < |Series(t, end, step, price, drift, draws, k)|
    ensures Series(t, end, step, price, drift, draws, k)[i].ts == t + i * step
    decreases i
  {
    SeriesShape(t, end, step, price, drift, draws, k);
    if i > 0 {
      SeriesAt(t, end, step, price, drift, draws, k, i - 1);
    }
  }

  /** Timestamps strictly increase. */
  lemma SeriesIncreasing(t: int, end: int, step: int, price: real, drift: real, draws: nat -> real, k: nat)
    requires step > 0 || t > end
    ensures var r := Series(t, end, step, price, drift, draws, k);
      forall i, j :: 0 <= i < j < |r| ==> r[i].ts < r[j].ts
  {
    var r := Series(t, end, step, price, drift, draws, k);
    SeriesShape(t, end, step, price, drift, draws, k);
    forall i, j | 0 <= i < j < |r| ensures r[i].ts < r[j].ts {
      StepsIncrease(r, step, i, j);
    }
  }

  lemma {:induction false} StepsIncrease(r: seq<Point>, step: int, i: int, j: int)
    requires step > 0
    requires forall n :: 0 <= n < |r| - 1 ==> r[n + 1].ts == r[n].ts + step
    requires 0 <= i < j < |r|
    ensures r[i].ts < r[j].ts
    decreases j - i
  {
    if j > i + 1 {
      StepsIncrease(r, step, i, j - 1);
    }
  }

  /** `(a - step) / step` is one less than `a / step` once `a >= step`. */
  lemma DivStep(a: int, step: int)
    requires step > 0 && a >= step
    ensures (a - step) / step == a / step - 1
  {
    var q, r := a / step, a % step;
    assert a == q * step + r && 0 <= r < step;
    assert a - step == (q - 1) * step + r;
    DivUnique(a - step, step, q - 1, r);
  }

  lemma DivUnique(a: int, step: int, q: int, r: int)
    requires step > 0 && a == q * step + r && 0 <= r < step
    ensures a / step == q
  {
    var q', r' := a / step, a % step;
    assert a == q' * step + r' && 0 <= r' < step;
    if q' < q {
      MulAtLeast(q - q', step);
    } else if q' > q {
      MulAtLeast(q' - q, step);
    }
  }

  lemma {:induction false} MulAtLeast(x: int, step: int)
    requires x >= 1 && step > 0
    ensures x * step >= step
    decreases x
  {
    if x > 1 {
      MulAtLeast(x - 1, step);
      assert x * step == (x - 1) * step + step;
    }
  }

  /** The series from `t` to `end` has `floor((end - t) / step) + 1` points,
      and none when `t > end`. */
  lemma {:induction false} SeriesLength(t: int, end: int, step: int, price: real, drift: real, draws: nat -> real, k: nat)
    requires step > 0 || t > end
    ensures |Series(t, end, step, price, drift, draws, k)| == if t <= end then (end - t) / step + 1 else 0
    decreases if t <= end then end - t + 1 else 0
  {
    if t <= end {
      var p := NextPrice(price, drift, draws(k + 1));
      SeriesLength(t + step, end, step, p, drift, draws, k + 1);
      if t + step <= end {
        DivStep(end - t, step);
      } else {
        DivUnique(end - t, step, 0, end - t);
      }
    }
  }

  /** `_gen_series(start, end, step, base, seed)`, with the generator's
      values as `draws`: the loop steps `t` by `step` while `t <= end`,
      walking the price from `base`. */
  method GenSeries(start: int, end: int, step: int, base: real, draws: nat -> real) returns (points: seq<Point>)
    requires step > 0 || start > end
    ensures points == Series(start, end, step, base, Drift(draws(0)), draws, 0)
  {
    var t := start;
    var price := base;
    var drift := Drift(draws(0));
    var k: nat := 0;
    points := [];
    while t <= end
      invariant step > 0 || t > end
      invariant points + Series(t, end, step, price, drift, draws, k) == Series(start, end, step, base, drift, draws, 0)
      decreases if t <= end then end - t + 1 else 0
    {
      ghost var next := NextPrice(price, drift, draws(k + 1));
      ghost var rest := Series(t + step, end, step, next, drift, draws, k + 1);
      assert Series(t, end, step, price, drift, draws, k) == [Point(t, next)] + rest;
      var noise := Noise(draws(k + 1));
      price := Max(0.01, price * (1.0 + drift + noise));
      assert price == next;
      assert points + ([Point(t, price)] + rest) == (points + [Point(t, price)]) + rest;
      points := points + [Point(t, price)];
      t := t + step;
      k := k + 1;
    }
  }

  /** `select(func.min(PriceHistory.ts)).where(asset_id == id)`. */
  function Oldest(samples: seq<Sample>, id: nat): (r: Option<int>)
    ensures r.None? <==> forall i :: 0 <= i < |samples| ==> samples[i].assetId != id
  {
    if samples == [] then None
    else
      var rest := Oldest(samples[1..], id);
      if samples[0].assetId != id then rest
      else if rest.None? || samples[0].ts <= rest.value then Some(samples[0].ts)
      else rest
  }

  /** The minimum is the timestamp of one of the asset's rows and no row of
      the asset is older; there is none exactly when the asset has no rows. */
  lemma {:induction false} OldestSpec(samples: seq<Sample>, id: nat)
    ensures var o := Oldest(samples, id);
      && (o.None? <==> forall i :: 0 <= i < |samples| ==> samples[i].assetId != id)
      && (o.Some? ==> HasSampleAt(samples, id, o.value))
      && (o.Some? ==> forall i :: 0 <= i < |samples| && samples[i].assetId == id ==> o.value <= samples[i].ts)
  {
    if samples != [] {
      OldestSpec(samples[1..], id);
      var o := Oldest(samples, id);
      var rest := Oldest(samples[1..], id);
      if rest.Some? {
        var j :| 0 <= j < |samples[1..]| && samples[1..][j].assetId == id && samples[1..][j].ts == rest.value;
        assert samples[j + 1] == samples[1..][j];
      }
      if o.Some? && o.value == samples[0].ts && samples[0].assetId == id {
        assert samples[0].assetId == id && samples[0].ts == o.value;
      }
      forall i | 1 <= i < |samples| ensures samples[i] == samples[1..][i - 1] {
      }
    }
  }

  /** `oldest is not None and oldest <= start`. */
  predicate Covered(samples: seq<Sample>, id: nat, start: int) {
    var o := Oldest(samples, id);
    o.Some? && o.value <= start
  }

  /** History reaches back to `start` exactly when some row of the asset is
      at or before `start`. */
  lemma CoveredSpec(samples: seq<Sample>, id: nat, start: int)
    ensures Covered(samples, id, start) <==>
      exists i :: 0 <= i < |samples| && samples[i].assetId == id && samples[i].ts <= start
  {
    OldestSpec(samples, id);
  }

  /** The rows after the per-point insert loop: each point is committed on
      its own and a point whose (asset, ts) is already taken is rolled back
      and skipped. */
  function InsertAll(samples: seq<Sample>, id: nat, points: seq<Point>): (r: seq<Sample>)
    ensures |samples| <= |r| <= |samples| + |points|
    decreases |points|
  {
    if points == [] then samples
    else
      var p := points[0];
      var next := if HasSampleAt(samples, id, p.ts) then samples else samples + [Sample(id, p.ts, p.price)];
      InsertAll(next, id, points[1..])
  }

  /** The loop only appends rows of the asset, at most one per point. */
  lemma {:induction false} InsertAllGrows(samples: seq<Sample>, id: nat, points: seq<Point>)
    ensures var r := InsertAll(samples, id, points);
      && |samples| <= |r| <= |samples| + |points|
      && r[..|samples|] == samples
      && (forall i :: |samples| <= i < |r| ==> r[i].assetId == id)
    decreases |points|
  {
    if points != [] {
      var p := points[0];
      var next := if HasSampleAt(samples, id, p.ts) then samples else samples + [Sample(id, p.ts, p.price)];
      InsertAllGrows(next, id, points[1..]);
      var r := InsertAll(next, id, points[1..]);
      assert r[..|samples|] == r[..|next|][..|samples|];
    }
  }

  /** A row present before the loop is still there after it. */
  lemma KeptRow(samples: seq<Sample>, id: nat, points: seq<Point>, assetId: nat, ts: int)
    requires HasSampleAt(samples, assetId, ts)
    ensures HasSampleAt(InsertAll(samples, id, points), assetId, ts)
  {
    InsertAllGrows(samples, id, points);
    var r := InsertAll(samples, id, points);
    var i :| 0 <= i < |samples| && samples[i].assetId == assetId && samples[i].ts == ts;
    assert r[..|samples|][i] == r[i];
  }

  /** After the loop the asset has a row at every generated timestamp. */
  lemma {:induction false} InsertAllCovers(samples: seq<Sample>, id: nat, points: seq<Point>)
    ensures forall k :: 0 <= k < |points| ==> HasSampleAt(InsertAll(samples, id, points), id, points[k].ts)
    decreases |points|
  {
    if points != [] {
      var p := points[0];
      var next := if HasSampleAt(samples, id, p.ts) then samples else samples + [Sample(id, p.ts, p.price)];
      InsertAllCovers(next, id, points[1..]);
      if !HasSampleAt(samples, id, p.ts) {
        assert next[|samples|] == Sample(id, p.ts, p.price);
      }
      KeptRow(next, id, points[1..], id, p.ts);
      forall k | 1 <= k < |points| ensures HasSampleAt(InsertAll(samples, id, points), id, points[k].ts) {
        assert points[k] == points[1..][k - 1];
      }
    }
  }

  /** Points at distinct timestamps none of which the asset has yet are all
      inserted. */
  lemma {:induction false} InsertAllFresh(samples: seq<Sample>, id: nat, points: seq<Point>)
    requires forall k :: 0 <= k < |points| ==> !HasSampleAt(samples, id, points[k].ts)
    requires forall i, j :: 0 <= i < j < |points| ==> points[i].ts < points[j].ts
    ensures |InsertAll(samples, id, points)| == |samples| + |points|
    decreases |points|
  {
    if points != [] {
      var p := points[0];
      var next := samples + [Sample(id, p.ts, p.price)];
      assert !HasSampleAt(samples, id, p.ts);
      forall k | 0 <= k < |points[1..]| ensures !HasSampleAt(next, id, points[1..][k].ts) {
        assert points[1..][k] == points[k + 1];
      }
      InsertAllFresh(next, id, points[1..]);
    }
  }

  /** `now - timedelta(hours=hrs)`, in seconds. */
  function SeedStart(now: int, hours: int): int {
    now - hours * SecondsPerHour
  }

  /** The series `seed_mock_prices` generates for `sym`: from `start` to
      `now`, walking from the symbol's baseline with the generator seeded by
      the symbol's code sum. */
  function SeedPoints(sym: string, start: int, now: int, step: int, rng: int -> (nat -> real)): seq<Point>
    requires step > 0 || start > now
  {
    var draws := rng(CodeSum(sym));
    Series(start, now, step, BaselineForSymbol(sym), Drift(draws(0)), draws, 0)
  }

  /** What `seed_mock_prices` returns; with a step of zero or less and a window to
      fill, its loop never ends. */
  datatype SeedOutcome = Inserted(count: nat) | NeverReturns

  /** The insert loop of `seed_mock_prices`: one commit per point, a
      refused point rolled back and skipped, successes counted. */
  method InsertPoints(db: Store, id: nat, points: seq<Point>) returns (inserted: nat)
    requires db.Valid() && 1 <= id <= |db.assets|
    modifies db
    ensures db.Valid() && db.assets == old(db.assets) && db.alerts == old(db.alerts)
    ensures db.samples == InsertAll(old(db.samples), id, points)
    ensures |db.samples| == |old(db.samples)| + inserted
  {
    inserted := 0;
    var i := 0;
    while i < |points|
      invariant 0 <= i <= |points|
      invariant db.Valid() && db.assets == old(db.assets) && db.alerts == old(db.alerts)
      invariant InsertAll(db.samples, id, points[i..]) == InsertAll(old(db.samples), id, points)
      invariant |db.samples| == |old(db.samples)| + inserted
    {
      var p := points[i];
      assert points[i..][1..] == points[i + 1..];
      var ok := db.InsertSample(id, p.ts, p.price);
      if ok {
        inserted := inserted + 1;
      }
      i := i + 1;
    }
    assert points[i..] == [];
  }

  /** `seed_mock_prices`: create the asset if absent; return 0 when its
      history already reaches `now - hours`; otherwise insert the generated
      points one by one, skipping taken (asset, ts) pairs, and return how
      many went in. */
  method SeedMockPrices(db: Store, symbol: string, hours: Option<int>, intervalSeconds: Option<int>,
                        env: Env, now: int, rng: int -> (nat -> real)) returns (r: SeedOutcome)
    requires db.Valid()
    modifies db
    ensures db.Valid() && db.alerts == old(db.alerts)
    ensures var sym := Upper(symbol);
      && (FindAsset(old(db.assets), sym).Some? ==> db.assets == old(db.assets))
      && (FindAsset(old(db.assets), sym).None? ==> db.assets == old(db.assets) + [Asset(|old(db.assets)| + 1, sym, None)])
      && FindAsset(db.assets, sym).Some? && FindAsset(db.assets, sym).value.id == AssetIdFor(old(db.assets), sym)
    ensures var sym := Upper(symbol);
      var id := AssetIdFor(old(db.assets), sym);
      var start := SeedStart(now, SeedHours(hours, env));
      var step := SeedStep(intervalSeconds, env);
      && (Covered(old(db.samples), id, start) ==> r == Inserted(0) && db.samples == old(db.samples))
      && (!Covered(old(db.samples), id, start) && step <= 0 && start <= now ==>
            r == NeverReturns && db.samples == old(db.samples))
      && (!Covered(old(db.samples), id, start) && (step > 0 || start > now) ==>
            db.samples == InsertAll(old(db.samples), id, SeedPoints(sym, start, now, step, rng))
            && r.Inserted? && |db.samples| == |old(db.samples)| + r.count)
  {
    var sym := Upper(symbol);
    var hrs := SeedHours(hours, env);
    var step := SeedStep(intervalSeconds, env);
    var start := SeedStart(now, hrs);
    var id := db.EnsureAsset(sym);
    var oldest := Oldest(db.samples, id);
    if oldest.Some? && oldest.value <= start {
      return Inserted(0);
    }
    if step <= 0 && start <= now {
      return NeverReturns;
    }
    var base := BaselineForSymbol(sym);
    var seed := CodeSum(sym);
    var points := GenSeries(start, now, step, base, rng(seed));
    var inserted := InsertPoints(db, id, points);
    return Inserted(inserted);
  }

  /** Once the points from `start` are in, the asset's history reaches back
      to `start`, so the coverage check stops any later seed. */
  lemma SeededIsCovered(samples: seq<Sample>, id: nat, sym: string, start: int, now: int, step: int,
                        rng: int -> (nat -> real))
    requires step > 0 && start <= now
    ensures Covered(InsertAll(samples, id, SeedPoints(sym, start, now, step, rng)), id, start)
  {
    var draws := rng(CodeSum(sym));
    var points := SeedPoints(sym, start, now, step, rng);
    SeriesShape(start, now, step, BaselineForSymbol(sym), Drift(draws(0)), draws, 0);
    InsertAllCovers(samples, id, points);
    var r := InsertAll(samples, id, points);
    assert HasSampleAt(r, id, points[0].ts);
    var i :| 0 <= i < |r| && r[i].assetId == id && r[i].ts == start;
    CoveredSpec(r, id, start);
  }

  /** An asset without rows gets every generated point:
      `floor(hours * 3600 / step) + 1` rows. */
  lemma FreshAssetSeedsAll(samples: seq<Sample>, id: nat, sym: string, hours: int, now: int, step: int,
                           rng: int -> (nat -> real))
    requires step > 0 && hours >= 0
    requires forall i :: 0 <= i < |samples| ==> samples[i].assetId != id
    ensures |InsertAll(samples, id, SeedPoints(sym, SeedStart(now, hours), now, step, rng))|
         == |samples| + (hours * SecondsPerHour) / step + 1
  {
    var start := SeedStart(now, hours);
    var draws := rng(CodeSum(sym));
    var points := SeedPoints(sym, start, now, step, rng);
    SeriesIncreasing(start, now, step, BaselineForSymbol(sym), Drift(draws(0)), draws, 0);
    SeriesLength(start, now, step, BaselineForSymbol(sym), Drift(draws(0)), draws, 0);
    InsertAllFresh(samples, id, points);
  }

  /** Two seeds in a row, the second no earlier than the first: when the
      first returns, the second inserts nothing. */
  method SeedTwice(db: Store, symbol: string, hours: Option<int>, intervalSeconds: Option<int>,
                   env: Env, now: int, later: int, rng: int -> (nat -> real)) returns (first: SeedOutcome, second: SeedOutcome)
    requires db.Valid() && now <= later
    modifies db
    ensures first.Inserted? ==> second == Inserted(0)
  {
    var sym := Upper(symbol);
    ghost var id := AssetIdFor(db.assets, sym);
    ghost var s0 := db.samples;
    ghost var start := SeedStart(now, SeedHours(hours, env));
    ghost var step := SeedStep(intervalSeconds, env);
    first := SeedMockPrices(db, symbol, hours, intervalSeconds, env, now, rng);
    ghost var id2 := AssetIdFor(db.assets, sym);
    assert id2 == id;
    if first.Inserted? {
      if Covered(s0, id, start) {
        assert Covered(db.samples, id, start);
      } else if step > 0 && start <= now {
        SeededIsCovered(s0, id, sym, start, now, step, rng);
      } else {
        assert start > now;
      }
    }
    second := SeedMockPrices(db, symbol, hours, intervalSeconds, env, later, rng);
  }
}
