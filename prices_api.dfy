/** `GET /prices`: the full price history of one asset, oldest first. */
module PricesApi {
  import opened Wrappers
  import opened Seqs
  import opened Text
  import opened Http
  import opened TimeSeries

  /** The `PricePoint` response item. */
  datatype PricePoint = PricePoint(ts: int, price: real)

  function ToPoints(rows: seq<Sample>): (r: seq<PricePoint>)
    ensures |r| == |rows|
    ensures forall i :: 0 <= i < |r| ==> r[i] == PricePoint(rows[i].ts, rows[i].price)
  {
    seq(|rows|, i requires 0 <= i < |rows| => PricePoint(rows[i].ts, rows[i].price))
  }

  /** The asset's samples ordered by time. */
  function History(samples: seq<Sample>, id: nat): seq<Sample> {
    Sort(Filter(samples, OfAsset(id)), ByTs())
  }

  /** `get_prices`; the `window` parameter is accepted and not used. */
  function GetPrices(assets: seq<Asset>, samples: seq<Sample>, asset: string, window: Option<string>): (r: Result<seq<PricePoint>, ApiError>)
    ensures r.Failure? ==> r.error == Unprocessable || r.error == NotFound("asset not found")
    ensures r.Success? ==> SymbolLengthOk(asset) && FindAsset(assets, Upper(asset)).Some?
  {
    if !SymbolLengthOk(asset) then Failure(Unprocessable)
    else match FindAsset(assets, Upper(asset))
      case None => Failure(NotFound("asset not found"))
      case Some(a) => Success(ToPoints(History(samples, a.id)))
  }

  /** 422 exactly when `asset` is not 2-20 characters, 404 exactly when
      no asset has the upper-cased symbol, and `window` never matters. */
  lemma GetPricesErrors(assets: seq<Asset>, samples: seq<Sample>, asset: string, window: Option<string>, other: Option<string>)
    ensures GetPrices(assets, samples, asset, window) == GetPrices(assets, samples, asset, other)
    ensures GetPrices(assets, samples, asset, window) == Failure(Unprocessable) <==> !SymbolLengthOk(asset)
    ensures GetPrices(assets, samples, asset, window) == Failure(NotFound("asset not found")) <==>
      SymbolLengthOk(asset) && FindAsset(assets, Upper(asset)).None?
  {
  }

  /** The asset's history holds exactly its samples, each as often as it
      is stored. */
  lemma HistorySpec(samples: seq<Sample>, id: nat)
    ensures multiset(History(samples, id)) == multiset(Filter(samples, OfAsset(id)))
    ensures |History(samples, id)| == Count(samples, OfAsset(id))
    ensures forall x :: x in History(samples, id) <==> x in samples && x.assetId == id
  {
    SortMembers(Filter(samples, OfAsset(id)), ByTs());
  }

  /** With samples unique per (asset, ts) the history runs strictly
      forward in time. */
  lemma HistoryIncreasing(samples: seq<Sample>, id: nat)
    requires UniqueBy(samples, SampleKey)
    ensures var rows := History(samples, id);
      forall i, j :: 0 <= i < j < |rows| ==> rows[i].ts < rows[j].ts
  {
    ByTsStrict(samples, OfAsset(id), id);
    var rows := History(samples, id);
    assert rows == Sort(Filter(samples, OfAsset(id)), ByTs());
  }

  /** Each point of the history is a sample of the asset, and each sample
      of the asset shows up as a point. */
  lemma HistoryPoints(samples: seq<Sample>, id: nat)
    ensures var pts := ToPoints(History(samples, id));
      && (forall i :: 0 <= i < |pts| ==> Sample(id, pts[i].ts, pts[i].price) in samples)
      && (forall x :: x in samples && x.assetId == id ==> PricePoint(x.ts, x.price) in pts)
  {
    var rows := History(samples, id);
    var pts := ToPoints(rows);
    HistorySpec(samples, id);
    forall i | 0 <= i < |pts| ensures Sample(id, pts[i].ts, pts[i].price) in samples {
      assert rows[i] in rows;
    }
    forall x | x in samples && x.assetId == id ensures PricePoint(x.ts, x.price) in pts {
      var i :| 0 <= i < |rows| && rows[i] == x;
      assert pts[i] == PricePoint(x.ts, x.price);
    }
  }

  /** For a known asset the answer has one point per sample of that asset
      and no other, in strictly increasing time when samples are unique per
      (asset, ts). */
  lemma GetPricesSpec(assets: seq<Asset>, samples: seq<Sample>, asset: string, window: Option<string>, a: Asset)
    requires SymbolLengthOk(asset) && FindAsset(assets, Upper(asset)) == Some(a)
    ensures GetPrices(assets, samples, asset, window).Success?
    ensures var pts := GetPrices(assets, samples, asset, window).value;
      && |pts| == Count(samples, OfAsset(a.id))
      && (forall i :: 0 <= i < |pts| ==> Sample(a.id, pts[i].ts, pts[i].price) in samples)
      && (forall x :: x in samples && x.assetId == a.id ==> PricePoint(x.ts, x.price) in pts)
    ensures var pts := GetPrices(assets, samples, asset, window).value;
      UniqueBy(samples, SampleKey) ==> forall i, j :: 0 <= i < j < |pts| ==> pts[i].ts < pts[j].ts
  {
    assert GetPrices(assets, samples, asset, window) == Success(ToPoints(History(samples, a.id)));
    HistorySpec(samples, a.id);
    HistoryPoints(samples, a.id);
    if UniqueBy(samples, SampleKey) {
      HistoryIncreasing(samples, a.id);
    }
  }
}
