/** `/assets`: register an asset under its upper-cased symbol, and list the
    registry ordered by symbol. */
module AssetsApi {
  import opened Wrappers
  import opened Seqs
  import opened Text
  import opened Http
  import opened TimeSeries

  /** The `AssetCreate` request body. */
  datatype AssetCreate = AssetCreate(symbol: string, name: Option<string>)

  /** The body's field constraints: a 2-20 character symbol and a name of at
      most 100 characters. */
  predicate ValidCreate(p: AssetCreate) {
    SymbolLengthOk(p.symbol) && (p.name.None? || |p.name.value| <= 100)
  }

  /** `AssetCreate.normalized`. */
  function Normalized(p: AssetCreate): (r: AssetCreate)
    ensures r.name == p.name && |r.symbol| == |p.symbol|
  {
    AssetCreate(Upper(p.symbol), p.name)
  }

  /** Normalizing upper-cases the symbol, keeps the name, keeps a valid body
      valid, and changes nothing the second time. */
  lemma NormalizedSpec(p: AssetCreate)
    ensures IsUpper(Normalized(p).symbol) && |Normalized(p).symbol| == |p.symbol|
    ensures Normalized(p).name == p.name
    ensures ValidCreate(p) ==> ValidCreate(Normalized(p))
    ensures Normalized(Normalized(p)) == Normalized(p)
  {
    UpperIsUpper(p.symbol);
    UpperIdempotent(p.symbol);
  }

  /** `create_asset`: a body out of bounds is refused with 422; a symbol
      that exists after upper-casing gives 409 "asset already exists" and the
      registry is rolled back; otherwise exactly one asset is added, with the
      upper-cased symbol and the given name, and returned. */
  method CreateAsset(db: Store, payload: AssetCreate) returns (r: Result<Asset, ApiError>)
    requires db.Valid()
    modifies db
    ensures db.Valid() && db.samples == old(db.samples) && db.alerts == old(db.alerts)
    ensures !ValidCreate(payload) ==> r == Failure(Unprocessable) && db.assets == old(db.assets)
    ensures ValidCreate(payload) && FindAsset(old(db.assets), Upper(payload.symbol)).Some? ==>
      r == Failure(Conflict("asset already exists")) && db.assets == old(db.assets)
    ensures ValidCreate(payload) && FindAsset(old(db.assets), Upper(payload.symbol)).None? ==>
      && r == Success(Asset(|old(db.assets)| + 1, Upper(payload.symbol), payload.name))
      && db.assets == old(db.assets) + [r.value]
  {
    if !ValidCreate(payload) {
      return Failure(Unprocessable);
    }
    var data := Normalized(payload);
    var added := db.AddAsset(data.symbol, data.name);
    if added.None? {
      return Failure(Conflict("asset already exists"));
    }
    return Success(added.value);
  }

  /** `ORDER BY symbol`. */
  function BySymbol(): (Asset, Asset) -> bool {
    (a: Asset, b: Asset) => LexLe(a.symbol, b.symbol)
  }

  lemma BySymbolTotalPreorder()
    ensures TotalPreorder(BySymbol())
  {
    forall a: Asset, b: Asset ensures BySymbol()(a, b) || BySymbol()(b, a) {
      LexLeTotal(a.symbol, b.symbol);
    }
    forall a: Asset, b: Asset, c: Asset | BySymbol()(a, b) && BySymbol()(b, c) ensures BySymbol()(a, c) {
      LexLeTransitive(a.symbol, b.symbol, c.symbol);
    }
  }

  /** `list_assets`. */
  function ListAssets(assets: seq<Asset>): (r: seq<Asset>)
    ensures multiset(r) == multiset(assets)
  {
    Sort(assets, BySymbol())
  }

  /** The listing is the whole registry, each row once, ordered by symbol;
      with unique symbols the order is strict. An empty registry lists as
      empty. */
  lemma ListAssetsSpec(assets: seq<Asset>)
    ensures multiset(ListAssets(assets)) == multiset(assets)
    ensures |ListAssets(assets)| == |assets|
    ensures assets == [] ==> ListAssets(assets) == []
    ensures var r := ListAssets(assets);
      forall i, j :: 0 <= i < j < |r| ==> LexLe(r[i].symbol, r[j].symbol)
    ensures var r := ListAssets(assets);
      UniqueBy(assets, SymbolOf) ==> forall i, j :: 0 <= i < j < |r| ==> r[i].symbol != r[j].symbol
  {
    var r := ListAssets(assets);
    SortMembers(assets, BySymbol());
    BySymbolTotalPreorder();
    SortSorted(assets, BySymbol());
    forall i, j | 0 <= i < j < |r| ensures LexLe(r[i].symbol, r[j].symbol) {
      assert BySymbol()(r[i], r[j]);
    }
    if UniqueBy(assets, SymbolOf) {
      forall i, j | 0 <= i < j < |r| ensures r[i].symbol != r[j].symbol {
        UniqueNoRepeat(assets, SymbolOf, r, i, j);
        assert r[i] in multiset(assets) && r[j] in multiset(assets);
        var a :| 0 <= a < |assets| && assets[a] == r[i];
        var b :| 0 <= b < |assets| && assets[b] == r[j];
        assert a != b;
        if a < b {
          assert SymbolOf(assets[a]) != SymbolOf(assets[b]);
        } else {
          assert SymbolOf(assets[b]) != SymbolOf(assets[a]);
        }
      }
    }
  }

  /** "X" is too short; "btc" with name "Bitcoin" is stored as "BTC". */
  lemma CreateExamples()
    ensures !ValidCreate(AssetCreate("X", None))
    ensures ValidCreate(AssetCreate("btc", Some("Bitcoin")))
    ensures Normalized(AssetCreate("btc", Some("Bitcoin"))) == AssetCreate("BTC", Some("Bitcoin"))
  {
    assert Upper("btc") == "BTC";
  }

  /** Registering "ETH" and then "eth": the second is a conflict and the
      registry keeps one row for it. */
  method CreateTwice(db: Store, name: Option<string>) returns (first: Result<Asset, ApiError>, second: Result<Asset, ApiError>)
    requires db.Valid() && FindAsset(db.assets, "ETH").None?
    requires name.None? || |name.value| <= 100
    modifies db
    ensures first == Success(Asset(|old(db.assets)| + 1, "ETH", name))
    ensures second == Failure(Conflict("asset already exists"))
    ensures db.assets == old(db.assets) + [Asset(|old(db.assets)| + 1, "ETH", name)]
  {
    assert Upper("ETH") == "ETH" && Upper("eth") == "ETH";
    first := CreateAsset(db, AssetCreate("ETH", name));
    FindAssetAppend(old(db.assets), first.value);
    second := CreateAsset(db, AssetCreate("eth", name));
  }
}
