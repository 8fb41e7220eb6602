# telemetry-board worker and query core, in Dafny

This project models the core of telemetry-board, a small service that tracks
asset prices. Its worker side has four tasks:

- **fetch_price** asks CoinGecko for a symbol's USD price and stores it as a sample at "now".
- **compute_alerts** compares the first and last samples of an asset's trailing window. It records an alert when the percent change reaches a threshold.
- **prune_old_prices** deletes samples older than a retention period.
- **seed_mock_prices** fills an asset's missing history with a deterministic random walk.

The beat schedule built by `build_beat_schedule` (worker/schedule.py:17-28) holds one `fetch_price` job and one `compute_alerts` job per symbol; it schedules neither pruning nor seeding. A lazy mapping builds it on first read and caches it until it is refreshed. No code shown installs it as Celery's `beat_schedule` (see "## Left out").

The query side has three routers. Only the `/assets` router is mounted by `create_app` (app/main.py:30); the `/alerts` and `/prices` routers are defined but not included, so the application does not serve them. The model describes each handler as written:

- `/assets` registers assets and lists them by symbol.
- `/alerts` returns an asset's newest alerts, up to a limit.
- `/prices` returns an asset's price history, oldest first.

Module layout:

| module | file | what it holds |
|---|---|---|
| `Wrappers` | wrappers.dfy | `Option` and `Result` |
| `Text` | text.dfy | `str.strip`, `str.upper` and code-point string order |
| `Seqs` | seqs.dfy | filtering, counting and a stable insertion sort by a total preorder |
| `Config` | config.dfy | the environment variables the worker jobs read, already parsed |
| `TimeSeries` | store.dfy | the `assets`, `price_history` and `alerts` tables as a `Store` class whose methods change them in place |
| `Schedule` | schedule.dfy | `build_beat_schedule` and `LazyBeatSchedule` |
| `AlertTask` | alerts.dfy | `compute_alerts` |
| `Maintenance` | maintenance.dfy | `prune_old_prices` |
| `Seed` | seed.dfy | `seed_mock_prices` and its series generator |
| `PriceFetch` | fetch.dfy | `fetch_price`, `_get_price_usd` and the fetch counters |
| `Http` | http.dfy | error responses and the shared symbol-length rule |
| `AssetsApi`, `AlertsApi`, `PricesApi` | assets_api.dfy, alerts_api.dfy, prices_api.dfy | the three endpoints |

Modelling choices:

- Time is a whole number of seconds, UTC.
- Prices are `real`.
- The clock (`now`) is a parameter.
- The network reply is a parameter: a function from CoinGecko id to `Reply`.
- The random generator is a parameter: a function from seed to its stream of `random()` values.
- The store keeps the schema's invariants in `Store.Valid`:
  - autoincrement ids;
  - unique symbols;
  - one sample per (asset, ts);
  - foreign keys.
- SQL `ORDER BY` is a stable insertion sort by the column's order. SQL does not fix the order of ties, so every property stated about an order holds for any tie order.

Points where the code does less than its tests or its data might suggest. The model follows the code:

- **No retries in the fetch.** tests/test_worker_fetch_backoff.py:22-52 expects three attempts after two 500 replies. `_get_price_usd` (worker/tasks/prices.py:30-41) sends one request and has no retry. `PriceFetch.GetPriceUsd` records the ids of the one `requests.get` call the code makes (worker/tasks/prices.py:37), or none for an unmapped symbol; that count mirrors the code's structure rather than being derived. `PriceFetch.ServerErrorNotRetried` shows that a 5xx reply fails the fetch after that one request.
- **No per-asset alert overrides.** `compute_alerts` reads only its arguments and the environment (worker/tasks/alerts.py:40-43). The `assets` table has no column for an override (alembic/versions/0001_initial.py:15-21).
- **The `window` parameter of `/prices` is ignored** (app/api/prices.py:37).

## Model

| member | source | states |
|---|---|---|
| Text.Strip | worker/schedule.py:15 | `strip()` is empty exactly when the string is all white space; otherwise it starts and ends with a non-space character |
| Text.StripSpec | worker/schedule.py:15 | `strip()` is the slice left after the leading and trailing white space, and only white space lies outside it |
| Text.UpperIsUpper | worker/tasks/alerts.py:40 | `upper()` leaves no lower-case letter |
| Text.UpperIdempotent | app/api/assets.py:20-21 | upper-casing twice is upper-casing once |
| Text.LexLeTotal | app/api/assets.py:38 | any two symbols are ordered one way or the other |
| Text.LexLeTransitive | app/api/assets.py:38 | the symbol order is transitive |
| Text.LexLeAntisymmetric | app/api/assets.py:38 | two symbols ordered both ways are equal |
| TimeSeries.FindAsset | worker/tasks/alerts.py:48-50 | a found row is in the registry and has the symbol; if nothing is found, no row has the symbol |
| TimeSeries.FindAssetAppend | worker/tasks/prices.py:61-67 | a symbol that was missing is found, after it is appended, as the appended row |
| TimeSeries.ByTsStrict | worker/tasks/alerts.py:57-65 | with one sample per (asset, ts), one asset's rows sorted by `ts` are strictly increasing |
| TimeSeries.Store.AddAsset | app/api/assets.py:45-53 | a symbol already present is refused and nothing changes; otherwise exactly one row is appended, with the next id |
| TimeSeries.Store.EnsureAsset | worker/tasks/prices.py:61-67 | finds the symbol's row or appends a minimal one (no name); returns its id, which then resolves to the symbol |
| TimeSeries.Store.InsertSample | worker/tasks/seed.py:87-93 | the row is appended exactly when its (asset, ts) is free; otherwise the table is unchanged |
| TimeSeries.Store.AddAlert | worker/tasks/alerts.py:79-86 | appends the alert and changes nothing else |
| TimeSeries.Store.DeleteSamplesBefore | worker/tasks/maintenance.py:34-40 | keeps exactly the rows with `ts >= cutoff`; the count is the number of rows deleted |
| Schedule.Clean | worker/schedule.py:15 | a non-blank entry cleans to a non-empty upper-case symbol |
| Schedule.NormalizeSymbols | worker/schedule.py:15 | at most one symbol per entry, and no empty symbol |
| Schedule.NormalizeSymbolsMembers | worker/schedule.py:15 | a symbol is produced exactly when some non-blank entry cleans to it |
| Schedule.KeysDistinct | worker/schedule.py:18-24 | a fetch key never equals a compute key, and each key determines its symbol |
| Schedule.BeatTableJobs | worker/schedule.py:17-28 | every symbol has a `fetch_price` job and a `compute_alerts` job with the same period and `args == (sym,)` |
| Schedule.BeatTableKeys | worker/schedule.py:17-28 | the table has no key other than the two job names of some symbol |
| Schedule.BeatTableSize | worker/schedule.py:17-28 | the table has two entries per distinct symbol, because repeats overwrite |
| Schedule.BuildBeatSchedule | worker/schedule.py:9-29 | the loop's result is the table of the normalized symbols, with period `max(1, every_seconds)` |
| Schedule.LazyBeatSchedule.constructor | worker/schedule.py:41-43 | keeps the factory and starts with no cache and no factory call |
| Schedule.LazyBeatSchedule.Ensure | worker/schedule.py:45-47 | runs the factory once if nothing is cached; otherwise keeps the cache |
| Schedule.LazyBeatSchedule.Refresh | worker/schedule.py:49-51 | drops the cache without calling the factory |
| Schedule.LazyBeatSchedule.GetItem | worker/schedule.py:53-56 | the cached table's entry, or `None` where Python raises `KeyError`; the factory runs only on the first read |
| Schedule.LazyBeatSchedule.Contains | worker/schedule.py:68-71 | key membership in the cached table |
| Schedule.LazyBeatSchedule.Len | worker/schedule.py:63-66 | the cached table's size |
| Schedule.LazyBeatSchedule.Iter | worker/schedule.py:58-61 | every key of the cached table exactly once |
| Schedule.LazyReadsScenario | worker/schedule.py:32-51 | the first read answers from the table built for the environment of that moment; a later read returns that same table although the environment has changed; after `refresh` the table for the new environment is returned |
| Schedule.LazyReadsAgree | worker/schedule.py:53-71 | `len` equals the number of iterated keys, and `key in m` holds exactly when `m[key]` succeeds |
| Schedule.NormalizeExample | tests/test_worker_schedule.py:12 | `"BTC, eth ,  "` normalizes to exactly `BTC`, `ETH` |
| Schedule.EnvScheduleScenario | tests/test_worker_schedule.py:8-22 | ASSETS `"BTC, eth ,  "` with a 120 s interval gives exactly the four jobs `fetch_BTC`, `compute_BTC`, `fetch_ETH` and `compute_ETH` |
| AlertTask.EffectiveSettingsResolution | worker/tasks/alerts.py:21-24 | the defaults are 60 minutes and 5%; an argument beats the environment, and the environment beats the default |
| AlertTask.WindowRowsCount | worker/tasks/alerts.py:57-65 | the window query returns one row per in-window sample of the asset |
| AlertTask.WindowRowsMembers | worker/tasks/alerts.py:57-65 | the window holds exactly the asset's samples with `ts >= now - window` |
| AlertTask.WindowRowsIncreasing | worker/tasks/alerts.py:57-65 | the window is strictly increasing in `ts`, so `rows[0]` is the earliest sample and `rows[-1]` the latest |
| AlertTask.Evaluate | worker/tasks/alerts.py:67-78 | an alert needs at least two rows and a non-zero first price, and its change reaches the threshold in magnitude |
| AlertTask.AlertFor | worker/tasks/alerts.py:54-88 | an alert for a known asset carries its id, `now` and the window, and its window has at least two rows |
| AlertTask.Outcome | worker/tasks/alerts.py:40-88 | an alert exists only for a symbol found after upper-casing, and carries that asset's id, `now`, the effective window and a change reaching the effective threshold |
| AlertTask.UnknownAssetNoAlert | worker/tasks/alerts.py:48-52 | an unknown upper-cased symbol never produces an alert |
| AlertTask.FewSamplesNoAlert | worker/tasks/alerts.py:67-68 | fewer than two in-window samples produce no alert |
| AlertTask.AlertDecision | worker/tasks/alerts.py:70-78 | a zero baseline gives no alert; otherwise an alert is produced exactly when the absolute change is at least the threshold, and it carries the signed change |
| AlertTask.ThresholdInclusive | worker/tasks/alerts.py:78 | a change exactly at the threshold alerts |
| AlertTask.EvaluateReachesThreshold | worker/tasks/alerts.py:78 | every recorded change has at least the threshold's magnitude |
| AlertTask.AlertForRows | worker/tasks/alerts.py:54-88 | the alert for a known asset, branch by branch, stamped with `now` and the window |
| AlertTask.ComputeAlerts | worker/tasks/alerts.py:34-89 | appends the outcome's alert or nothing, returns 1 or 0 to match, and leaves assets and samples alone |
| AlertTask.DefaultsTwoSamples | worker/tasks/alerts.py:40-88 | with the defaults, samples 50 and 5 minutes old alert exactly when their change reaches 5% |
| AlertTask.AlertScenarios | tests/test_alerts_compute.py:25-71 | 100 → 106 records one +6% alert over 60 minutes; 100 → 104 records none |
| Maintenance.EffectiveRetentionResolution | worker/tasks/maintenance.py:22-28 | the default is 30 days, and an argument beats `RETENTION_DAYS` |
| Maintenance.Pruned | worker/tasks/maintenance.py:36 | the rows left after the delete are no more than before, and none is older than the cutoff |
| Maintenance.PrunedSpec | worker/tasks/maintenance.py:31-36 | the sweep keeps exactly the rows with `ts >= cutoff`, of every asset, and removes as many rows as are strictly older |
| Maintenance.PrunedIdempotent | worker/tasks/maintenance.py:36 | a second sweep at the same cutoff changes nothing and finds nothing older |
| Maintenance.PruneOldPrices | worker/tasks/maintenance.py:27-40 | `days <= 0` deletes nothing and returns 0; otherwise the rows older than `now - days` are deleted and counted |
| Maintenance.PruneTwice | worker/tasks/maintenance.py:27-40 | a repeated sweep with the same clock deletes nothing |
| Maintenance.PrunedStaleThenRecent | worker/tasks/maintenance.py:36-40 | rows all older than the cutoff followed by rows all at or after it: the sweep deletes exactly the first run, counting its length, and keeps the second |
| Maintenance.RetentionScenario | tests/test_retention.py:18-48 | with the default 30 days, rows 31 and 40 days old are removed and the row 1 day old is kept |
| Seed.BaselineForSymbol | worker/tasks/seed.py:22-24 | the starting price is 50000, 2000 or 100 |
| Seed.BaselineCases | worker/tasks/seed.py:22-24 | BTC gives 50000 and ETH 2000, in any case; every other symbol gives 100 |
| Seed.SeedSettingsResolution | worker/tasks/seed.py:56-57 | a non-zero argument is used; `None` or 0 falls back to the environment and then to 168 h / 300 s |
| Seed.NextPrice | worker/tasks/seed.py:36-37 | every step's price is at least 0.01 |
| Seed.Series | worker/tasks/seed.py:27-39 | every yielded point lies between `start` and `end` and has a price of at least 0.01 |
| Seed.SeriesShape | worker/tasks/seed.py:31-39 | the points start at `start`, lie in `[start, end]`, are `step` apart, and have prices of at least 0.01 |
| Seed.SeriesAt | worker/tasks/seed.py:34-39 | the i-th point is at `start + i * step` |
| Seed.SeriesIncreasing | worker/tasks/seed.py:34-39 | timestamps strictly increase |
| Seed.SeriesLength | worker/tasks/seed.py:34-39 | there are `(end - start) / step + 1` points when `start <= end`, else none |
| Seed.GenSeries | worker/tasks/seed.py:27-39 | the `while t <= end` loop yields exactly the series, with the drift from the first draw and noise from each later draw |
| Seed.Oldest | worker/tasks/seed.py:74-76 | `min(ts)` is `None` exactly when the asset has no rows |
| Seed.OldestSpec | worker/tasks/seed.py:74-76 | `min(ts)` is `None` exactly when the asset has no rows; otherwise it is one of its timestamps and no row is older |
| Seed.CoveredSpec | worker/tasks/seed.py:80-82 | coverage holds exactly when some row of the asset is at or before `start` |
| Seed.InsertAll | worker/tasks/seed.py:86-93 | the per-point loop adds at most one row per point and removes none |
| Seed.InsertAllGrows | worker/tasks/seed.py:86-93 | the insert loop keeps the old rows as a prefix and appends at most one row of the asset per point |
| Seed.KeptRow | worker/tasks/seed.py:86-93 | a row present before the loop is still present after it |
| Seed.InsertAllCovers | worker/tasks/seed.py:86-93 | after the loop the asset has a row at every generated timestamp |
| Seed.InsertAllFresh | worker/tasks/seed.py:86-93 | when every timestamp is new, every point is inserted |
| Seed.InsertPoints | worker/tasks/seed.py:86-94 | the method's loop gives the per-point result and counts exactly the rows added |
| Seed.SeedMockPrices | worker/tasks/seed.py:43-94 | creates the asset if absent; returns 0 without writing when history reaches `now - hours`; otherwise inserts the generated points, skipping taken timestamps, and returns the count; a non-positive step with a window to fill never returns |
| Seed.SeededIsCovered | worker/tasks/seed.py:80-94 | after seeding, the coverage check holds |
| Seed.FreshAssetSeedsAll | worker/tasks/seed.py:84-94 | an asset without rows gets `hours * 3600 / step + 1` rows |
| Seed.SeedTwice | tests/test_mock_seed.py:49-61 | a second seed at the same time or later inserts 0 |
| PriceFetch.CoingeckoId | worker/tasks/prices.py:22-27 | the only ids are `bitcoin` and `ethereum` |
| PriceFetch.CoingeckoIdCases | worker/tasks/prices.py:22-27 | BTC maps to bitcoin and ETH to ethereum, in any case; every other symbol is unmapped |
| PriceFetch.GetPriceUsd | worker/tasks/prices.py:30-41 | an unmapped symbol fails as unsupported with no request; otherwise exactly one request, which succeeds exactly when the reply is not a transport error, its status is not one `raise_for_status` raises for (400-599), and `usd` is present, returning that price |
| PriceFetch.FetchCounters.IncSuccess | worker/tasks/prices.py:74 | the symbol's success count goes up by one and nothing else changes |
| PriceFetch.FetchCounters.IncFailure | worker/tasks/prices.py:55 | the symbol's failure count goes up by one and nothing else changes |
| PriceFetch.RecordPrice | worker/tasks/prices.py:59-75 | finds or creates the asset, appends the sample at `now` and counts a success; a sample already at `now` fails as a duplicate with nothing counted and the asset step kept |
| PriceFetch.FetchPrice | worker/tasks/prices.py:48-75 | a failed fetch counts a failure and writes nothing; a fetched price creates the asset if needed, stores the sample at `now`, counts a success and returns the price; a sample already at `now` fails after the asset step |
| PriceFetch.UnsupportedMakesNoRequest | tests/test_worker_errors.py:17-26 | `DOGE` fails as unsupported with no request |
| PriceFetch.BitcoinReplies | tests/test_worker_fetch.py:22-54 | a 200 reply with `usd` 12345.67 gives that price from one `bitcoin` request; a network error fails |
| PriceFetch.ServerErrorNotRetried | worker/tasks/prices.py:37-38 | a 5xx reply fails the fetch with that status after one request for `bitcoin`; there is no second attempt |
| AssetsApi.Normalized | app/api/assets.py:20-21 | the normalized body keeps the name and the symbol's length |
| AssetsApi.NormalizedSpec | app/api/assets.py:20-21 | the symbol is upper-cased with its length kept, the name is kept, a valid body stays valid, and normalizing is idempotent |
| AssetsApi.CreateAsset | app/api/assets.py:42-55 | 422 when the body breaks the limits of app/api/assets.py:16-18 (symbol not 2-20 characters, or name over 100); 409 "asset already exists" when the upper-cased symbol exists; otherwise exactly one row is added and returned |
| AssetsApi.BySymbolTotalPreorder | app/api/assets.py:38 | ordering by symbol is total and transitive |
| AssetsApi.ListAssets | app/api/assets.py:36-39 | the listing is a rearrangement of the registry: the same multiset of rows |
| AssetsApi.ListAssetsSpec | app/api/assets.py:36-39 | the listing is a permutation of the registry ordered by symbol; with unique symbols the order is strict; an empty registry lists as `[]` |
| AssetsApi.CreateExamples | tests/test_assets.py:30-53 | `"X"` is refused; `"btc"` is stored as `"BTC"` with its name |
| AssetsApi.CreateTwice | tests/test_assets.py:41-46 | `ETH` then `eth`: the first is created and the second is a 409 conflict |
| AlertsApi.Take | app/api/alerts.py:45 | `LIMIT n` keeps the first `min(n, len)` rows, in order, and only rows of its input |
| AlertsApi.GetAlerts | app/api/alerts.py:27-50 | the handler as evidently intended (see "## Findings"): the only errors are 422 and 404 "asset not found"; a success is for a found asset and has at most `limit` rows |
| AlertsApi.GetAlertsErrors | app/api/alerts.py:27-38 | 422 exactly when `asset` is not 2-20 characters or `limit` (default 20) is outside 1..1000; otherwise 404 "asset not found" exactly when the upper-cased symbol is unknown |
| AlertsApi.NewestFirstSpec | app/api/alerts.py:40-49 | the same multiset as the asset's stored alerts (so each alert as often as it is stored, and no others), newest first |
| AlertsApi.TakeKeepsNewest | app/api/alerts.py:44-45 | a limited newest-first list stays newest first, keeps only its rows, and every row left out, counted with its repeats (the multiset difference), is no newer than every row kept |
| AlertsApi.NewestTaken | app/api/alerts.py:40-49 | the first `limit` of an asset's alerts newest first: `min(limit, count)` rows, a sub-multiset of the asset's alerts, newest first, and every alert left out, counted with its repeats, is no newer than those kept |
| AlertsApi.GetAlertsSpec | app/api/alerts.py:27-50 | returns `min(limit, count)` alerts, a sub-multiset of that asset's stored alerts, newest first; every alert left out, counted with its repeats, is no newer than those returned |
| AlertsApi.GetAlertsAsWritten | app/api/alerts.py:14-50 | as written: a success is always `[]`; it fails with 500 exactly when the intended handler would return a non-empty list, and agrees with it on 422 and 404 |
| AlertsApi.AsWrittenFailsWithAlerts | app/api/alerts.py:17-50 | a valid request for an asset with at least one alert is a 500 as written, while the intended handler returns a non-empty list |
| AlertsApi.StoredAlertAnswers500 | app/api/alerts.py:17-50 | one stored BTC alert: the intended handler returns it, the code as written answers 500 |
| AlertsApi.AlertsExamples | tests/test_alerts.py:23-34 | a known asset with no alerts gets `[]`; an unknown one gets 404 |
| PricesApi.ToPoints | app/api/prices.py:45 | one `PricePoint` per row, with the same `ts` and `price` |
| PricesApi.GetPrices | app/api/prices.py:26-45 | the only errors are 422 and 404 "asset not found"; a success is for a valid, found symbol |
| PricesApi.GetPricesErrors | app/api/prices.py:26-37 | 422 exactly when `asset` is not 2-20 characters, 404 exactly when the symbol is unknown, and `window` never changes the answer |
| PricesApi.HistorySpec | app/api/prices.py:38-45 | the history is the same multiset as the asset's stored samples |
| PricesApi.HistoryIncreasing | app/api/prices.py:40 | with one sample per (asset, ts), the history is strictly increasing in `ts` |
| PricesApi.HistoryPoints | app/api/prices.py:38-45 | each point is a sample of the asset, and each sample of the asset is a point |
| PricesApi.GetPricesSpec | app/api/prices.py:26-45 | for a known asset, one point per sample of that asset and no others, in strictly increasing time |

## Findings

| source | as written | input that shows it | evidently intended | confidence | as-written member | corrected member |
|---|---|---|---|---|---|---|
| app/api/alerts.py:17 | `AlertOut.triggered_at` is declared `str`, while `Alert.triggered_at` is a `datetime` (app/models/alert.py:19); pydantic v2 does not turn a `datetime` into a `str`, so `AlertOut.model_validate(r)` at app/api/alerts.py:50 raises for every row and the request ends in a 500 | asset BTC with one stored alert, `GET /alerts/?asset=BTC` | return the asset's newest alerts, with `triggered_at` typed `datetime` as `AssetOut.created_at` and `PricePoint.ts` are | medium, not executed (reading of pydantic v2's documented strict string type) | AlertsApi.GetAlertsAsWritten | AlertsApi.GetAlerts |

## Left out

- HTTP transport, URL building, JSON decoding and the 10 s timeout. The reply of the single request is a parameter (`Reply`). `raise_for_status` raises for a status from 400 to 599, as requests does.
- Retry and backoff. The code has none, so nothing of it is modelled (see above for the test that expects it).
- The `FETCH_DURATION` and `ALERT_COMPUTE_SECONDS` histograms and the `ALERTS_TOTAL` counter. The fetch counters are plain per-symbol maps.
- Celery task registration, sessions, engines and `db.close()`. Each task is a method on a `Store`.
- Concurrency between tasks and commit races. Each task runs alone on the store.
- Floating point. Prices and percentages are exact `real`s, so `float()` conversions and rounding are not modelled.
- The Mersenne Twister generator. It is the `rng` parameter, a function from seed to the stream of draws in `[0, 1)` order of use.
- Timezone handling. That includes the naive SQLite timestamps normalized at worker/tasks/seed.py:77-79. Time is whole seconds, UTC.
- Environment parsing. `int(...)` and `float(...)` errors on malformed variables are not modelled; `Env` holds already parsed values.
- Text.Upper: only ASCII letters are case-mapped.
- Text.IsSpace: covers the Latin-1 white space `str.strip` removes; other Unicode spaces are not modelled.
- Text.LexLe: code-point order stands for the database collation of `ORDER BY symbol`.
- Schedule.LazyBeatSchedule.Iter: returns the keys in an unspecified order rather than dict insertion order.
- Splitting the `ASSETS` variable on commas, the `ENABLE_BEAT` and `FETCH_INTERVAL_SECONDS` variables, and installing the table as `beat_schedule`. No code among the files shown reads these variables or sets `beat_schedule`: only tests/test_worker_schedule.py:11-17 refers to them. The schedule scenarios start from the split list.
- Overflow of date arithmetic. `timedelta` and `datetime` raise `OverflowError` when `retention_days`, `hours` or the alert window is huge (worker/tasks/maintenance.py:31, worker/tasks/seed.py:60, worker/tasks/alerts.py:55). The model's integers are unbounded, so it computes a cutoff or window start where the code raises.
- Pydantic's 422 response bodies. A validation failure is the single error `Unprocessable`.
- The `id` and `created_at` fields of `AssetOut` (app/api/assets.py:24-28) and the `id` field of `AlertOut` (app/api/alerts.py:15). Alerts carry no id in the model.
- The `/prices/summary` endpoint and parsing of a window string. They are not part of the modelled `/prices` handler.
- Per-asset alert overrides. The source does not read them.
- Seed.SeedMockPrices: an interval that is zero or negative with a window to fill loops forever in the source, committing rows as it goes. The model returns `NeverReturns` with the samples unchanged instead of running the loop, so it does not describe the rows written before the process is stopped.
- Failures of the commit during seeding other than the (asset, ts) uniqueness constraint. The catch-all `except` is modelled as that one refusal.
