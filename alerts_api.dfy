/** `GET /alerts`: the most recent alerts of one asset, newest first. */
module AlertsApi {
  import opened Wrappers
  import opened Seqs
  import opened Text
  import opened Http
  import opened TimeSeries

  /** The `limit` query parameter's default. */
  const DefaultLimit := 20

  /** `ORDER BY triggered_at DESC`. */
  function ByTriggeredDesc(): (Alert, Alert) -> bool {
    (a: Alert, b: Alert) => a.triggeredAt >= b.triggeredAt
  }

  lemma ByTriggeredDescTotalPreorder()
    ensures TotalPreorder(ByTriggeredDesc())
  {
  }

  /** `LIMIT n`: the first `n` rows, or all of them when there are fewer. */
  function Take<T>(s: seq<T>, n: nat): (r: seq<T>)
    ensures |r| == if n <= |s| then n else |s|
    ensures forall i :: 0 <= i < |r| ==> r[i] == s[i]
    ensures multiset(r) <= multiset(s)
  {
    if n <= |s| then
      assert s == s[..n] + s[n..];
      s[..n]
    else s
  }

  /** The asset's alerts, newest first. */
  function NewestFirst(alerts: seq<Alert>, id: nat): seq<Alert> {
    Sort(Filter(alerts, AlertOfAsset(id)), ByTriggeredDesc())
  }

  /** `get_alerts`. */
  function GetAlerts(assets: seq<Asset>, alerts: seq<Alert>, asset: string, limit: Option<int>): (r: Result<seq<Alert>, ApiError>)
    ensures r.Failure? ==> r.error == Unprocessable || r.error == NotFound("asset not found")
    ensures r.Success? ==> FindAsset(assets, Upper(asset)).Some? && |r.value| <= limit.GetOr(DefaultLimit)
  {
    var lim := limit.GetOr(DefaultLimit);
    if !SymbolLengthOk(asset) || !(1 <= lim <= 1000) then Failure(Unprocessable)
    else match FindAsset(assets, Upper(asset))
      case None => Failure(NotFound("asset not found"))
      case Some(a) => Success(Take(NewestFirst(alerts, a.id), lim))
  }

  /** The request fails with 422 exactly when `asset` is not 2-20
      characters or `limit` (20 when absent) is outside 1..1000, and
      otherwise with 404 exactly when no asset has the upper-cased symbol. */
  lemma GetAlertsErrors(assets: seq<Asset>, alerts: seq<Alert>, asset: string, limit: Option<int>)
    ensures var lim := limit.GetOr(DefaultLimit);
      GetAlerts(assets, alerts, asset, limit) == Failure(Unprocessable) <==>
        !SymbolLengthOk(asset) || lim < 1 || lim > 1000
    ensures GetAlerts(assets, alerts, asset, limit).Failure? && GetAlerts(assets, alerts, asset, limit).error.NotFound? <==>
      SymbolLengthOk(asset) && 1 <= limit.GetOr(DefaultLimit) <= 1000 && FindAsset(assets, Upper(asset)).None?
    ensures GetAlerts(assets, alerts, asset, limit).Failure? && GetAlerts(assets, alerts, asset, limit).error.NotFound? ==>
      GetAlerts(assets, alerts, asset, limit).error == NotFound("asset not found")
  {
  }

  /** The asset's alerts, each as often as it is stored and no other,
      newest first. */
  lemma NewestFirstSpec(alerts: seq<Alert>, id: nat)
    ensures multiset(NewestFirst(alerts, id)) == multiset(Filter(alerts, AlertOfAsset(id)))
    ensures |NewestFirst(alerts, id)| == Count(alerts, AlertOfAsset(id))
    ensures forall x :: x in NewestFirst(alerts, id) <==> x in alerts && x.assetId == id
    ensures SortedBy(NewestFirst(alerts, id), ByTriggeredDesc())
  {
    SortMembers(Filter(alerts, AlertOfAsset(id)), ByTriggeredDesc());
    ByTriggeredDescTotalPreorder();
    SortSorted(Filter(alerts, AlertOfAsset(id)), ByTriggeredDesc());
  }

  /** Cutting a newest-first list anywhere leaves every row of the tail no
      newer than every row of the head. */
  lemma TailNoNewer(sorted: seq<Alert>, k: nat)
    requires k <= |sorted| && SortedBy(sorted, ByTriggeredDesc())
    ensures forall x, y :: x in sorted[k..] && y in sorted[..k] ==> x.triggeredAt <= y.triggeredAt
  {
    forall x, y | x in sorted[k..] && y in sorted[..k] ensures x.triggeredAt <= y.triggeredAt {
      var i :| 0 <= i < |sorted| - k && sorted[k..][i] == x;
      var m :| 0 <= m < k && sorted[..k][m] == y;
      assert ByTriggeredDesc()(sorted[m], sorted[k + i]);
    }
  }

  /** Taking a prefix of a newest-first list keeps it newest first, keeps
      only its rows, and keeps the most recent ones: every row left out,
      counted with its repeats, is no newer than every row kept. */
  lemma TakeKeepsNewest(sorted: seq<Alert>, n: nat)
    requires SortedBy(sorted, ByTriggeredDesc())
    ensures var rows := Take(sorted, n);
      && (forall i, j :: 0 <= i < j < |rows| ==> rows[i].triggeredAt >= rows[j].triggeredAt)
      && (forall x :: x in rows ==> x in sorted)
      && (forall x, y :: x in multiset(sorted) - multiset(rows) && y in rows ==> x.triggeredAt <= y.triggeredAt)
  {
    var rows := Take(sorted, n);
    var k := |rows|;
    assert rows == sorted[..k];
    forall i, j | 0 <= i < j < k ensures rows[i].triggeredAt >= rows[j].triggeredAt {
      assert ByTriggeredDesc()(sorted[i], sorted[j]);
    }
    assert sorted == rows + sorted[k..];
    assert multiset(sorted) - multiset(rows) == multiset(sorted[k..]);
    TailNoNewer(sorted, k);
  }

  /** The first `lim` of an asset's alerts, newest first: only that asset's
      alerts, each at most as often as it is stored, newest first, as many
      as the limit allows, and every alert left out, counted with its
      repeats, is no newer than every alert kept. */
  lemma NewestTaken(alerts: seq<Alert>, id: nat, lim: nat)
    ensures var rows := Take(NewestFirst(alerts, id), lim);
      var n := Count(alerts, AlertOfAsset(id));
      && |rows| == (if lim <= n then lim else n)
      && multiset(rows) <= multiset(Filter(alerts, AlertOfAsset(id)))
      && (forall x :: x in rows ==> x in alerts && x.assetId == id)
      && (forall i, j :: 0 <= i < j < |rows| ==> rows[i].triggeredAt >= rows[j].triggeredAt)
      && (forall x, y :: x in multiset(Filter(alerts, AlertOfAsset(id))) - multiset(rows) && y in rows ==> x.triggeredAt <= y.triggeredAt)
      && (n == 0 ==> rows == [])
  {
    var sorted := NewestFirst(alerts, id);
    var rows := Take(sorted, lim);
    NewestFirstSpec(alerts, id);
    assert multiset(Filter(alerts, AlertOfAsset(id))) - multiset(rows) == multiset(sorted) - multiset(rows);
    TakeKeepsNewest(sorted, lim);
  }

  /** For a known asset the answer holds only that asset's alerts, each at
      most as often as it is stored, newest first, as many as the limit
      allows; every alert left out, counted with its repeats, is no newer
      than every alert returned. An asset without alerts gets an empty list. */
  lemma GetAlertsSpec(assets: seq<Asset>, alerts: seq<Alert>, asset: string, limit: Option<int>, a: Asset)
    requires SymbolLengthOk(asset) && 1 <= limit.GetOr(DefaultLimit) <= 1000
    requires FindAsset(assets, Upper(asset)) == Some(a)
    ensures GetAlerts(assets, alerts, asset, limit).Success?
    ensures var rows := GetAlerts(assets, alerts, asset, limit).value;
      var lim := limit.GetOr(DefaultLimit);
      var n := Count(alerts, AlertOfAsset(a.id));
      && |rows| == (if lim <= n then lim else n)
      && multiset(rows) <= multiset(Filter(alerts, AlertOfAsset(a.id)))
      && (forall x :: x in rows ==> x in alerts && x.assetId == a.id)
      && (forall i, j :: 0 <= i < j < |rows| ==> rows[i].triggeredAt >= rows[j].triggeredAt)
      && (forall x, y :: x in multiset(Filter(alerts, AlertOfAsset(a.id))) - multiset(rows) && y in rows ==> x.triggeredAt <= y.triggeredAt)
      && (n == 0 ==> rows == [])
  {
    var lim: nat := limit.GetOr(DefaultLimit);
    assert GetAlerts(assets, alerts, asset, limit) == Success(Take(NewestFirst(alerts, a.id), lim));
    NewestTaken(alerts, a.id, lim);
  }

  /** `get_alerts` as written: `AlertOut.triggered_at` is declared `str`,
      which refuses the `datetime` an `Alert` row holds, so
      `AlertOut.model_validate` raises on the first row and the request
      ends in a 500. Only an empty answer gets through. */
  function GetAlertsAsWritten(assets: seq<Asset>, alerts: seq<Alert>, asset: string, limit: Option<int>): (r: Result<seq<Alert>, ApiError>)
    ensures r.Success? ==> r.value == []
    ensures GetAlerts(assets, alerts, asset, limit).Failure? ==> r == GetAlerts(assets, alerts, asset, limit)
    ensures r == Failure(InternalError) <==>
      GetAlerts(assets, alerts, asset, limit).Success? && GetAlerts(assets, alerts, asset, limit).value != []
  {
    var lim := limit.GetOr(DefaultLimit);
    if !SymbolLengthOk(asset) || !(1 <= lim <= 1000) then Failure(Unprocessable)
    else match FindAsset(assets, Upper(asset))
      case None => Failure(NotFound("asset not found"))
      case Some(a) =>
        var rows := Take(NewestFirst(alerts, a.id), lim);
        if rows == [] then Success([]) else Failure(InternalError)
  }

  /** As written, any valid request for an asset that has at least one
      alert fails with 500, where the intended `GetAlerts` returns them. */
  lemma AsWrittenFailsWithAlerts(assets: seq<Asset>, alerts: seq<Alert>, asset: string, limit: Option<int>, a: Asset)
    requires SymbolLengthOk(asset) && 1 <= limit.GetOr(DefaultLimit) <= 1000
    requires FindAsset(assets, Upper(asset)) == Some(a)
    requires exists x :: x in alerts && x.assetId == a.id
    ensures GetAlertsAsWritten(assets, alerts, asset, limit) == Failure(InternalError)
    ensures GetAlerts(assets, alerts, asset, limit).Success? && GetAlerts(assets, alerts, asset, limit).value != []
  {
    var x :| x in alerts && x.assetId == a.id;
    NewestFirstSpec(alerts, a.id);
    assert x in NewestFirst(alerts, a.id);
    GetAlertsSpec(assets, alerts, asset, limit, a);
  }

  /** One stored alert for BTC: the intended handler returns it, the code
      as written answers 500. */
  lemma StoredAlertAnswers500()
    ensures GetAlerts([Asset(1, "BTC", None)], [Alert(1, 5, 60, 6.0)], "BTC", None) == Success([Alert(1, 5, 60, 6.0)])
    ensures GetAlertsAsWritten([Asset(1, "BTC", None)], [Alert(1, 5, 60, 6.0)], "BTC", None) == Failure(InternalError)
  {
    assert Upper("BTC") == "BTC";
    assert FindAsset([Asset(1, "BTC", None)], "BTC") == Some(Asset(1, "BTC", None));
    assert [Alert(1, 5, 60, 6.0)] == [Alert(1, 5, 60, 6.0)] + [];
    FilterCons(Alert(1, 5, 60, 6.0), [], AlertOfAsset(1));
    NewestFirstSpec([Alert(1, 5, 60, 6.0)], 1);
  }

  /** With BTC as the only asset and no alerts yet: "btc" gets an empty
      list and an unknown symbol gets 404. */
  lemma AlertsExamples(alerts: seq<Alert>)
    requires alerts == []
    ensures GetAlerts([Asset(1, "BTC", None)], alerts, "btc", None) == Success([])
    ensures GetAlerts([Asset(1, "BTC", None)], alerts, "NOPE", None) == Failure(NotFound("asset not found"))
  {
    assert Upper("btc") == "BTC";
    assert Upper("NOPE") == "NOPE";
    assert NewestFirst(alerts, 1) == [];
    assert FindAsset([Asset(1, "BTC", None)], Upper("btc")) == Some(Asset(1, "BTC", None));
  }
}
