/** The retention sweep: delete every sample strictly older than a cutoff
    a number of days before now, across all assets. */
module Maintenance {
  import opened Wrappers
  import opened Seqs
  import opened Config
  import opened TimeSeries

  const SecondsPerDay: int := 86400

  /** `_retention_days_from_env`: RETENTION_DAYS, default 30. */
  function RetentionDaysFromEnv(env: Env): int {
    env.retentionDays.GetOr(30)
  }

  /** The retention in effect: the argument when given, else the environment's. */
  function EffectiveRetention(retentionDays: Option<int>, env: Env): int {
    retentionDays.GetOr(RetentionDaysFromEnv(env))
  }

  lemma EffectiveRetentionResolution(retentionDays: Option<int>, env: Env)
    ensures EffectiveRetention(None, Unset) == 30
    ensures retentionDays.Some? ==> EffectiveRetention(retentionDays, env) == retentionDays.value
    ensures retentionDays.None? ==> EffectiveRetention(retentionDays, env) == env.retentionDays.GetOr(30)
  {
  }

  /** `now - timedelta(days=days)`, in seconds. */
  function Cutoff(now: int, days: int): int {
    now - days * SecondsPerDay
  }

  /** `PriceHistory.ts < cutoff`: the rows the sweep deletes. */
  function OlderThan(cutoff: int): Sample -> bool {
    (s: Sample) => s.ts < cutoff
  }

  /** The price history after a sweep at `cutoff`. */
  function Pruned(samples: seq<Sample>, cutoff: int): (r: seq<Sample>)
    ensures |r| <= |samples|
    ensures forall x :: x in r ==> x.ts >= cutoff
  {
    Filter(samples, NotOlderThan(cutoff))
  }

  /** A sweep keeps exactly the rows at or after the cutoff, of every asset,
      and removes as many rows as are strictly older than the cutoff. */
  lemma PrunedSpec(samples: seq<Sample>, cutoff: int)
    ensures forall s :: s in Pruned(samples, cutoff) <==> s in samples && s.ts >= cutoff
    ensures |samples| - |Pruned(samples, cutoff)| == Count(samples, OlderThan(cutoff))
  {
    FilterSplit(samples, NotOlderThan(cutoff), OlderThan(cutoff));
  }

  /** A second sweep at the same cutoff finds nothing left to delete. */
  lemma PrunedIdempotent(samples: seq<Sample>, cutoff: int)
    ensures Pruned(Pruned(samples, cutoff), cutoff) == Pruned(samples, cutoff)
    ensures Count(Pruned(samples, cutoff), OlderThan(cutoff)) == 0
  {
    FilterIdempotent(samples, NotOlderThan(cutoff));
    PrunedSpec(Pruned(samples, cutoff), cutoff);
  }

  /** `prune_old_prices`: with a positive retention, the samples strictly
      older than `now - days` are deleted and counted; otherwise nothing
      happens and the result is 0. Assets and alerts are never touched. */
  method PruneOldPrices(db: Store, retentionDays: Option<int>, env: Env, now: int) returns (removed: nat)
    requires db.Valid()
    modifies db
    ensures db.Valid()
    ensures db.assets == old(db.assets) && db.alerts == old(db.alerts)
    ensures var days := EffectiveRetention(retentionDays, env);
      && (days <= 0 ==> removed == 0 && db.samples == old(db.samples))
      && (days > 0 ==> db.samples == Pruned(old(db.samples), Cutoff(now, days))
                       && removed == Count(old(db.samples), OlderThan(Cutoff(now, days))))
  {
    var days := EffectiveRetention(retentionDays, env);
    if days <= 0 {
      return 0;
    }
    var cutoff := Cutoff(now, days);
    PrunedSpec(db.samples, cutoff);
    removed := db.DeleteSamplesBefore(cutoff);
  }

  /** Two sweeps in a row with the same settings and clock: the second
      deletes nothing. */
  method PruneTwice(db: Store, retentionDays: Option<int>, env: Env, now: int) returns (first: nat, second: nat)
    requires db.Valid()
    modifies db
    ensures second == 0
  {
    var days := EffectiveRetention(retentionDays, env);
    ghost var before := db.samples;
    first := PruneOldPrices(db, retentionDays, env, now);
    if days > 0 {
      PrunedIdempotent(before, Cutoff(now, days));
    }
    second := PruneOldPrices(db, retentionDays, env, now);
  }

  /** A run of rows all older than the cutoff followed by a run all at or
      after it: the sweep removes exactly the first run and keeps the second. */
  lemma {:induction false} PrunedStaleThenRecent(stale: seq<Sample>, recent: seq<Sample>, cutoff: int)
    requires forall x :: x in stale ==> x.ts < cutoff
    requires forall x :: x in recent ==> x.ts >= cutoff
    ensures Pruned(stale + recent, cutoff) == recent
    ensures Count(stale + recent, OlderThan(cutoff)) == |stale|
  {
    if stale == [] {
      assert stale + recent == recent;
      FilterAll(recent, NotOlderThan(cutoff));
    } else {
      assert stale + recent == [stale[0]] + (stale[1..] + recent);
      PrunedStaleThenRecent(stale[1..], recent, cutoff);
      FilterCons(stale[0], stale[1..] + recent, NotOlderThan(cutoff));
    }
    PrunedSpec(stale + recent, cutoff);
  }

  /** With the default 30 days, samples 31, 40 and 1 day old: two are
      removed and the 1-day-old one is kept. */
  lemma RetentionScenario(now: int, p31: real, p40: real, p1: real)
    ensures var samples := [Sample(1, now - 31 * SecondsPerDay, p31), Sample(1, now - 40 * SecondsPerDay, p40),
                            Sample(1, now - SecondsPerDay, p1)];
      var cutoff := Cutoff(now, EffectiveRetention(None, Unset));
      Pruned(samples, cutoff) == [Sample(1, now - SecondsPerDay, p1)]
      && Count(samples, OlderThan(cutoff)) == 2
  {
    assert Cutoff(now, EffectiveRetention(None, Unset)) == now - 30 * SecondsPerDay;
    var stale := [Sample(1, now - 31 * SecondsPerDay, p31), Sample(1, now - 40 * SecondsPerDay, p40)];
    var recent := [Sample(1, now - SecondsPerDay, p1)];
    assert stale + recent == [Sample(1, now - 31 * SecondsPerDay, p31), Sample(1, now - 40 * SecondsPerDay, p40),
                              Sample(1, now - SecondsPerDay, p1)];
    PrunedStaleThenRecent(stale, recent, now - 30 * SecondsPerDay);
  }
}
