/** `CryptoWrapper(api, **kwargs)`: the one entry point, which looks the API
    name up in a fixed table and builds that wrapper. */
module Facade {
  import opened Wrappers
  import opened OrderedDict
  import opened Registry

  /** `_API_WRAPPERS`, in its declared order. */
  const ApiWrappers: Dict<Exchange> := [
    ("CMC", CoinMarketCap),
    ("CryptoCompare", CryptoCompare),
    ("BitMEX", BitMEX),
    ("Binance", Binance),
    ("BinanceDEX", BinanceDEX),
    ("Bitfinex", Bitfinex),
    ("Deribit", Deribit)
  ]

  /** The name under which the table lists each wrapper. */
  function ApiName(ex: Exchange): string {
    match ex
    case CoinMarketCap => "CMC"
    case CryptoCompare => "CryptoCompare"
    case BitMEX => "BitMEX"
    case Binance => "Binance"
    case BinanceDEX => "BinanceDEX"
    case Bitfinex => "Bitfinex"
    case Deribit => "Deribit"
  }

  /** `__init__`: an unknown name raises `ValueError`, a known one selects its wrapper. */
  function Lookup(api: string): (r: Result<Exchange>)
    ensures r.Err? <==> api !in Keys(ApiWrappers)
    ensures r.Err? ==> r.error == ValueError("API not supported: " + api)
    ensures r.Ok? ==> (api, r.value) in ApiWrappers
  {
    GetSome(ApiWrappers, api);
    GetIn(ApiWrappers, api);
    match Get(ApiWrappers, api)
    case None => Err(ValueError("API not supported: " + api))
    case Some(ex) => Ok(ex)
  }

  /** A value `Get` finds is one of the table's entries. */
  lemma {:induction false} GetIn<V>(d: Dict<V>, k: string)
    ensures Get(d, k).Some? ==> (k, Get(d, k).value) in d
  {
    if d != [] && d[0].0 != k {
      GetIn(d[1..], k);
    }
  }

  /** The table names every wrapper once: listing the names gives `ApiName`
      of each exchange in turn, and no name is repeated. */
  lemma TableLayout()
    ensures |ApiWrappers| == 7
    ensures forall i :: 0 <= i < |ApiWrappers| ==> ApiWrappers[i].0 == ApiName(ApiWrappers[i].1)
    ensures forall i, j :: 0 <= i < j < |ApiWrappers| ==> ApiWrappers[i].1 != ApiWrappers[j].1
  {
  }

  /** Every wrapper is reachable through its table name, and from no other name. */
  lemma LookupRoundTrip(ex: Exchange, api: string)
    ensures Lookup(ApiName(ex)) == Ok(ex)
    ensures Lookup(api) == Ok(ex) ==> api == ApiName(ex)
  {
    TableLayout();
    var at: nat := match ex
      case CoinMarketCap => 0 case CryptoCompare => 1 case BitMEX => 2 case Binance => 3
      case BinanceDEX => 4 case Bitfinex => 5 case Deribit => 6;
    assert ApiWrappers[at].1 == ex;
    UniqueFirst(ApiWrappers, ex);
    if Lookup(api) == Ok(ex) {
      var i :| 0 <= i < |ApiWrappers| && ApiWrappers[i] == (api, ex);
    }
  }

  /** In a table whose entry names are `ApiName` of their exchange and whose
      exchanges are distinct, the name of `ex` finds `ex`. */
  lemma {:induction false} UniqueFirst(d: Dict<Exchange>, ex: Exchange)
    requires forall i :: 0 <= i < |d| ==> d[i].0 == ApiName(d[i].1)
    requires exists i :: 0 <= i < |d| && d[i].1 == ex
    ensures Get(d, ApiName(ex)) == Some(ex)
  {
    if d[0].1 != ex {
      ApiNameInjective(d[0].1, ex);
      assert exists i :: 0 <= i < |d[1..]| && d[1..][i].1 == ex by {
        var i :| 0 <= i < |d| && d[i].1 == ex;
        assert d[1..][i - 1].1 == ex;
      }
      UniqueFirst(d[1..], ex);
    }
  }

  lemma ApiNameInjective(a: Exchange, b: Exchange)
    ensures ApiName(a) == ApiName(b) ==> a == b
  {
  }
}
