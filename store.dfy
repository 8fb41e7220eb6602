/** The shared relational store: the `assets`, `price_history` and `alerts`
    tables, with the uniqueness constraints of the schema, as one object whose
    tables the worker tasks change in place. */
module TimeSeries {
  import opened Wrappers
  import opened Seqs

  /** A row of `assets`; `id` is the autoincrement key. */
  datatype Asset = Asset(id: nat, symbol: string, name: Option<string>)

  /** A row of `price_history`; `ts` is in whole seconds, UTC. */
  datatype Sample = Sample(assetId: nat, ts: int, price: real)

  /** A row of `alerts`. */
  datatype Alert = Alert(assetId: nat, triggeredAt: int, windowMinutes: int, changePct: real)

  function SymbolOf(a: Asset): string { a.symbol }

  /** The key of the unique constraint `uq_price_history_asset_ts`. */
  function SampleKey(s: Sample): (nat, int) { (s.assetId, s.ts) }

  /** The `WHERE asset_id = id` filters. */
  function OfAsset(id: nat): Sample -> bool { (s: Sample) => s.assetId == id }
  function AlertOfAsset(id: nat): Alert -> bool { (a: Alert) => a.assetId == id }

  /** Rows the retention sweep keeps: not strictly older than the cutoff. */
  function NotOlderThan(cutoff: int): Sample -> bool { (s: Sample) => s.ts >= cutoff }

  /** `ORDER BY ts ASC`. */
  function ByTs(): (Sample, Sample) -> bool {
    (a: Sample, b: Sample) => a.ts <= b.ts
  }

  /** Rows of one asset without a repeated (asset, ts) key, rearranged in
      any order, never share a timestamp. */
  lemma DistinctTs(kept: seq<Sample>, rows: seq<Sample>, id: nat, i: int, j: int)
    requires UniqueBy(kept, SampleKey) && multiset(rows) == multiset(kept)
    requires forall x :: x in kept ==> x.assetId == id
    requires 0 <= i < j < |rows|
    ensures rows[i].ts != rows[j].ts
  {
    UniqueNoRepeat(kept, SampleKey, rows, i, j);
    assert rows[i] in multiset(kept) && rows[j] in multiset(kept);
    assert rows[i].assetId == id && rows[j].assetId == id;
  }

  /** One asset's rows, sorted by `ts`: with one sample per (asset, ts) the
      order is strict. */
  lemma ByTsStrict(samples: seq<Sample>, p: Sample -> bool, id: nat)
    requires UniqueBy(samples, SampleKey)
    requires forall x :: p(x) ==> x.assetId == id
    ensures var rows := Sort(Filter(samples, p), ByTs());
      forall i, j :: 0 <= i < j < |rows| ==> rows[i].ts < rows[j].ts
  {
    var kept := Filter(samples, p);
    var rows := Sort(kept, ByTs());
    SortSorted(kept, ByTs());
    FilterUnique(samples, p, SampleKey);
    forall i, j | 0 <= i < j < |rows| ensures rows[i].ts < rows[j].ts {
      assert ByTs()(rows[i], rows[j]);
      DistinctTs(kept, rows, id, i, j);
    }
  }

  /** The schema's invariants: autoincrement ids (assets are never deleted),
      unique symbols, one sample per (asset, ts), and foreign keys. */
  ghost predicate WellFormed(assets: seq<Asset>, samples: seq<Sample>, alerts: seq<Alert>) {
    && (forall i :: 0 <= i < |assets| ==> assets[i].id == i + 1)
    && UniqueBy(assets, SymbolOf)
    && UniqueBy(samples, SampleKey)
    && (forall i :: 0 <= i < |samples| ==> 1 <= samples[i].assetId <= |assets|)
    && (forall i :: 0 <= i < |alerts| ==> 1 <= alerts[i].assetId <= |assets|)
  }

  /** `select(Asset).where(Asset.symbol == symbol).scalar_one_or_none()`. */
  function FindAsset(assets: seq<Asset>, symbol: string): (r: Option<Asset>)
    ensures r.Some? ==> r.value in assets && r.value.symbol == symbol
    ensures r.None? ==> forall i :: 0 <= i < |assets| ==> assets[i].symbol != symbol
  {
    if assets == [] then None
    else if assets[0].symbol == symbol then Some(assets[0])
    else FindAsset(assets[1..], symbol)
  }

  /** Whether the asset already has a sample at `ts`. */
  predicate HasSampleAt(samples: seq<Sample>, assetId: nat, ts: int) {
    exists i :: 0 <= i < |samples| && samples[i].assetId == assetId && samples[i].ts == ts
  }

  lemma AppendUnique<T, K>(s: seq<T>, x: T, key: T -> K)
    requires UniqueBy(s, key)
    requires forall i :: 0 <= i < |s| ==> key(s[i]) != key(x)
    ensures UniqueBy(s + [x], key)
  {
  }

  lemma {:induction false} FindAssetById(assets: seq<Asset>, symbol: string, offset: nat)
    requires forall i :: 0 <= i < |assets| ==> assets[i].id == offset + i + 1
    ensures FindAsset(assets, symbol).Some? ==> 1 + offset <= FindAsset(assets, symbol).value.id <= offset + |assets|
  {
    if assets != [] && assets[0].symbol != symbol {
      FindAssetById(assets[1..], symbol, offset + 1);
    }
  }

  /** A symbol the registry lacks is found, after it is appended, as the
      appended row. */
  lemma {:induction false} FindAssetAppend(assets: seq<Asset>, a: Asset)
    requires FindAsset(assets, a.symbol).None?
    ensures FindAsset(assets + [a], a.symbol) == Some(a)
  {
    if assets == [] {
      assert assets + [a] == [a];
    } else {
      assert (assets + [a])[1..] == assets[1..] + [a];
      FindAssetAppend(assets[1..], a);
    }
  }

  /** The id a symbol's row has once it is looked up or auto-created: the
      existing row's, or the next autoincrement value. */
  function AssetIdFor(assets: seq<Asset>, symbol: string): nat {
    match FindAsset(assets, symbol)
    case Some(a) => a.id
    case None => |assets| + 1
  }

  class Store {
    var assets: seq<Asset>
    var samples: seq<Sample>
    var alerts: seq<Alert>

    ghost predicate Valid()
      reads this
    {
      WellFormed(assets, samples, alerts)
    }

    constructor ()
      ensures Valid() && assets == [] && samples == [] && alerts == []
    {
      assets, samples, alerts := [], [], [];
    }

    /** The id of a row found by `FindAsset` refers to an existing asset. */
    lemma FoundAssetExists(symbol: string)
      requires Valid() && FindAsset(assets, symbol).Some?
      ensures 1 <= FindAsset(assets, symbol).value.id <= |assets|
    {
      FindAssetById(assets, symbol, 0);
    }

    /** `db.add(Asset(symbol, name)); db.commit()`: the row is added, or the
        unique index on `symbol` refuses it and the session rolls back. */
    method AddAsset(symbol: string, name: Option<string>) returns (r: Option<Asset>)
      requires Valid()
      modifies this
      ensures Valid()
      ensures samples == old(samples) && alerts == old(alerts)
      ensures FindAsset(old(assets), symbol).Some? ==> r.None? && assets == old(assets)
      ensures FindAsset(old(assets), symbol).None? ==>
        r == Some(Asset(|old(assets)| + 1, symbol, name)) && assets == old(assets) + [r.value]
    {
      if FindAsset(assets, symbol).Some? {
        r := None;
      } else {
        var a := Asset(|assets| + 1, symbol, name);
        AppendUnique(assets, a, SymbolOf);
        assets := assets + [a];
        r := Some(a);
      }
    }

    /** The lookup-or-create step of the worker tasks: find the row for
        `symbol`, or add a minimal one (no name), and give its id. */
    method EnsureAsset(symbol: string) returns (id: nat)
      requires Valid()
      modifies this
      ensures Valid()
      ensures samples == old(samples) && alerts == old(alerts)
      ensures FindAsset(old(assets), symbol).Some? ==> assets == old(assets)
      ensures FindAsset(old(assets), symbol).None? ==> assets == old(assets) + [Asset(|old(assets)| + 1, symbol, None)]
      ensures id == AssetIdFor(old(assets), symbol) && 1 <= id <= |assets|
      ensures FindAsset(assets, symbol).Some? && FindAsset(assets, symbol).value.id == id
    {
      var found := FindAsset(assets, symbol);
      if found.None? {
        found := AddAsset(symbol, None);
        FindAssetAppend(old(assets), found.value);
      }
      FoundAssetExists(symbol);
      id := found.value.id;
    }

    /** `db.add(PriceHistory(...)); db.commit()`: the row is added unless the
        unique constraint on (asset_id, ts) refuses it, which leaves the table
        as it was. */
    method InsertSample(assetId: nat, ts: int, price: real) returns (ok: bool)
      requires Valid() && 1 <= assetId <= |assets|
      modifies this
      ensures Valid()
      ensures assets == old(assets) && alerts == old(alerts)
      ensures ok == !HasSampleAt(old(samples), assetId, ts)
      ensures samples == if ok then old(samples) + [Sample(assetId, ts, price)] else old(samples)
    {
      ok := !HasSampleAt(samples, assetId, ts);
      if ok {
        AppendUnique(samples, Sample(assetId, ts, price), SampleKey);
        samples := samples + [Sample(assetId, ts, price)];
      }
    }

    /** `db.add(Alert(...)); db.commit()`. */
    method AddAlert(alert: Alert)
      requires Valid() && 1 <= alert.assetId <= |assets|
      modifies this
      ensures Valid()
      ensures assets == old(assets) && samples == old(samples)
      ensures alerts == old(alerts) + [alert]
    {
      alerts := alerts + [alert];
    }

    /** `DELETE FROM price_history WHERE ts < cutoff`, with its row count. */
    method DeleteSamplesBefore(cutoff: int) returns (removed: nat)
      requires Valid()
      modifies this
      ensures Valid()
      ensures assets == old(assets) && alerts == old(alerts)
      ensures samples == Filter(old(samples), NotOlderThan(cutoff))
      ensures removed == |old(samples)| - |samples|
    {
      var kept := Filter(samples, NotOlderThan(cutoff));
      FilterUnique(samples, NotOlderThan(cutoff), SampleKey);
      forall i | 0 <= i < |kept| ensures 1 <= kept[i].assetId <= |assets| {
        assert kept[i] in samples;
      }
      removed := |samples| - |kept|;
      samples := kept;
    }
  }
}
