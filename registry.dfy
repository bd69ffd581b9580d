/** The endpoint registries: each wrapper's `name -> path` table and the loop
    in its `__init__` that derives an HTTP verb for every name. */
module Registry {
  import opened Wrappers
  import opened Strings

  /** The seven wrapped APIs. */
  datatype Exchange = CoinMarketCap | CryptoCompare | BitMEX | Binance | BinanceDEX | Bitfinex | Deribit

  datatype Verb = GET | POST | PUT | DELETE

  function VerbName(v: Verb): string {
    match v
    case GET => "GET"
    case POST => "POST"
    case PUT => "PUT"
    case DELETE => "DELETE"
  }

  /** The match of `re.compile(r"(GET|POST|PUT|DELETE)$")` in an operation name, if any. */
  function VerbSuffix(name: string): Option<Verb> {
    if EndsWith(name, "GET") then Some(GET)
    else if EndsWith(name, "POST") then Some(POST)
    else if EndsWith(name, "PUT") then Some(PUT)
    else if EndsWith(name, "DELETE") then Some(DELETE)
    else None
  }

  /** A name yields verb `v` exactly when it ends in `v`'s name: the four
      alternatives of the pattern never both match at the end of a name. */
  lemma VerbSuffixIff(name: string, v: Verb)
    ensures VerbSuffix(name) == Some(v) <==> EndsWith(name, VerbName(v))
  {
    var n := |name|;
    if EndsWith(name, VerbName(v)) {
      match v
      case GET =>
      case POST => assert name[n - 1] == 'T' && name[n - 2] == 'S';
      case PUT => assert name[n - 2] == 'U';
      case DELETE => assert name[n - 1] == 'E';
    }
  }

  /** One synthesised method: its name, the verb it sends, the table path. */
  datatype Operation = Operation(name: string, verb: Verb, path: string)

  type Table = seq<(string, string)>

  function Prepend(ops: seq<Operation>, r: Result<seq<Operation>>): Result<seq<Operation>> {
    match r
    case Ok(rest) => Ok(ops + rest)
    case Err(e) => Err(e)
  }

  /** The registry loop as a function of the remaining entries and the verb
      still bound from the previous iteration (`None` before the first match). */
  function Derive(table: Table, carried: Option<Verb>): Result<seq<Operation>>
    decreases |table|
  {
    if table == [] then Ok([])
    else
      var bound := if VerbSuffix(table[0].0).Some? then VerbSuffix(table[0].0) else carried;
      match bound
      case None => Err(NameError("local variable 'verb' referenced before assignment"))
      case Some(v) => Prepend([Operation(table[0].0, v, table[0].1)], Derive(table[1..], bound))
  }

  lemma PrependAssoc(a: seq<Operation>, b: seq<Operation>, r: Result<seq<Operation>>)
    ensures Prepend(a, Prepend(b, r)) == Prepend(a + b, r)
  {
    match r
    case Ok(rest) => assert a + (b + rest) == (a + b) + rest;
    case Err(e) =>
  }

  /** The `for function_name in funcs.keys()` loop of every wrapper's `__init__`:
      `verb` is rebound only when the name matches, so an unsuffixed name reuses it. */
  method BuildOperations(table: Table) returns (r: Result<seq<Operation>>)
    ensures r == Derive(table, None)
  {
    var ops: seq<Operation> := [];
    var verb: Option<Verb> := None;
    var i := 0;
    assert table[0..] == table;
    match Derive(table, None) {
      case Ok(all) => assert [] + all == all;
      case Err(_) =>
    }
    while i < |table|
      invariant 0 <= i <= |table|
      invariant Derive(table, None) == Prepend(ops, Derive(table[i..], verb))
    {
      var name := table[i].0;
      var path := table[i].1;
      var m := VerbSuffix(name);
      if m.Some? {
        verb := m;
      }
      assert table[i..][0] == table[i] && table[i..][1..] == table[i + 1..];
      if verb.None? {
        assert Derive(table[i..], verb).Err?;
        return Err(NameError("local variable 'verb' referenced before assignment"));
      }
      PrependAssoc(ops, [Operation(name, verb.value, path)], Derive(table[i + 1..], verb));
      ops := ops + [Operation(name, verb.value, path)];
      i := i + 1;
    }
    assert table[i..] == [] && ops + [] == ops;
    r := Ok(ops);
  }

  /** Once a verb is bound the loop cannot fail. */
  lemma {:induction false} DeriveBoundOk(table: Table, v: Verb)
    ensures Derive(table, Some(v)).Ok?
    decreases |table|
  {
    if table != [] {
      var bound := if VerbSuffix(table[0].0).Some? then VerbSuffix(table[0].0) else Some(v);
      DeriveBoundOk(table[1..], bound.value);
    }
  }

  /** The loop raises exactly when the very first name carries no verb suffix. */
  lemma DeriveFails(table: Table)
    ensures Derive(table, None).Err? <==> (|table| > 0 && VerbSuffix(table[0].0).None?)
  {
    if |table| > 0 && VerbSuffix(table[0].0).Some? {
      DeriveBoundOk(table[1..], VerbSuffix(table[0].0).value);
    }
  }

  /** Every entry becomes one operation with its own name and path; a suffixed
      name gets exactly its suffix, and an unsuffixed one the verb of the entry
      before it (or the verb still bound when the table started). */
  lemma {:induction false} DeriveShape(table: Table, carried: Option<Verb>, ops: seq<Operation>)
    requires Derive(table, carried) == Ok(ops)
    ensures |ops| == |table|
    ensures forall i :: 0 <= i < |ops| ==> ops[i].name == table[i].0 && ops[i].path == table[i].1
    ensures forall i :: 0 <= i < |ops| && VerbSuffix(table[i].0).Some? ==>
      ops[i].verb == VerbSuffix(table[i].0).value
    ensures forall i :: 0 < i < |ops| && VerbSuffix(table[i].0).None? ==> ops[i].verb == ops[i - 1].verb
    ensures |ops| > 0 && VerbSuffix(table[0].0).None? ==> carried == Some(ops[0].verb)
    decreases |table|
  {
    if table != [] {
      var bound := if VerbSuffix(table[0].0).Some? then VerbSuffix(table[0].0) else carried;
      var rest := Derive(table[1..], bound);
      assert rest.Ok? && ops == [Operation(table[0].0, bound.value, table[0].1)] + rest.value;
      DeriveShape(table[1..], bound, rest.value);
      forall i | 0 < i < |ops| ensures ops[i] == rest.value[i - 1] && table[i] == table[1..][i - 1] {}
    }
  }

  /** In a table whose first name is suffixed, an unsuffixed entry is sent with
      the verb of the entry before it. */
  lemma InheritsPrevious(t: Table, i: nat)
    requires 0 < i < |t|
    requires VerbSuffix(t[0].0).Some? && VerbSuffix(t[i].0).None?
    ensures Derive(t, None).Ok?
    ensures var ops := Derive(t, None).value;
      |ops| == |t| && ops[i] == Operation(t[i].0, ops[i - 1].verb, t[i].1)
  {
    DeriveFails(t);
    DeriveShape(t, None, Derive(t, None).value);
  }

  /** Binance's `trades_aggregate` has no suffix and is sent with the `GET` of
      `trades_GET`, the entry before it. */
  lemma BinanceTradesAggregateIsGet()
    ensures Derive(BinanceTable, None).Ok?
    ensures var ops := Derive(BinanceTable, None).value;
      |ops| == |BinanceTable| && ops[6] == Operation("trades_aggregate", GET, "/api/v1/aggTrades")
  {
    var g := "trades_GET";
    assert VerbSuffix(g) == Some(GET);
    BinanceTableEntries();
    var n := "trades_aggregate";
    assert VerbSuffix(n) == None by {
      assert n[|n| - 1] == 'e';
    }
    InheritsPrevious(BinanceTable, 6);
    DeriveShape(BinanceTable, None, Derive(BinanceTable, None).value);
  }

  lemma BinanceTableEntries()
    ensures |BinanceTable| == 36
    ensures BinanceTable[0].0 == "exchange_information_GET"
    ensures BinanceTable[5].0 == "trades_GET"
    ensures BinanceTable[6] == ("trades_aggregate", "/api/v1/aggTrades")
  {
  }

  /** `BinanceFunctionsEndpoints`, in declaration order. */
  const BinanceTable: Table := [
    ("exchange_information_GET", "/api/v1/exchangeInfo"),
    ("klines_GET", "/api/v1/klines"),
    ("orderbook_GET", "/api/v1/depth"),
    ("ping_GET", "/api/v1/ping"),
    ("time_GET", "/api/v1/time"),
    ("trades_GET", "/api/v1/trades"),
    ("trades_aggregate", "/api/v1/aggTrades"),
    ("ticker_24h_GET", "/api/v1/ticker/24hr"),
    ("price_GET", "/api/v3/avgPrice"),
    ("ticker_book_GET", "/api/v3/ticker/bookTicker"),
    ("ticker_price_GET", "/api/v3/ticker/price"),
    ("system_status_GET", "/wapi/v3/systemStatus.html"),
    ("trades_history_GET", "/api/v1/historicalTrades"),
    ("user_data_stream_DELETE", "/api/v1/userDataStream"),
    ("user_data_stream_POST", "/api/v1/userDataStream"),
    ("user_data_stream_PUT", "/api/v1/userDataStream"),
    ("account_GET", "/api/v3/account"),
    ("account_trades_GET", "/api/v3/myTrades"),
    ("order_GET", "/api/v3/order"),
    ("order_POST", "/api/v3/order"),
    ("order_cancel_DELETE", "/api/v3/order"),
    ("order_test_POST", "/api/v3/order/test"),
    ("orders_all_GET", "/api/v3/allOrders"),
    ("orders_open_GET", "/api/v3/openOrders"),
    ("sub_account_list_GET", "/wapi/v3/sub-account/list.html"),
    ("sub_account_transfer_POST", "/wapi/v3/sub-account/transfer.html"),
    ("sub_account_transfer_history_GET", "/wapi/v3/sub-account/transfer/history.html"),
    ("user_account_API_trading_status_GET", "/wapi/v3/apiTradingStatus.html"),
    ("user_account_status_GET", "/wapi/v3/accountStatus.html"),
    ("user_asset_detail_GET", "/wapi/v3/assetDetail.html"),
    ("user_dustlog_GET", "/wapi/v3/userAssetDribbletLog.html"),
    ("user_trade_fee_GET", "/wapi/v3/tradeFee.html"),
    ("user_wallet_deposit_address_GET", "/wapi/v3/depositAddress.html"),
    ("user_wallet_deposit_history_GET", "/wapi/v3/depositHistory.html"),
    ("user_wallet_withdraw_POST", "/wapi/v3/withdraw.html"),
    ("user_wallet_withdrawal_history_GET", "/wapi/v3/withdrawHistory.html")
  ]

  /** `BinanceDEXFunctionsEndpoints`, in declaration order. */
  const DexTable: Table := [
    ("account_GET", "/api/v1/account/"),
    ("account_sequence_GET", "/api/v1/account/"),
    ("broadcast_POST", "/api/v1/broadcast"),
    ("fees_GET", "/api/v1/fees"),
    ("klines_GET", "/api/v1/klines"),
    ("markets_GET", "/api/v1/markets"),
    ("node_info_GET", "/api/v1/node-info"),
    ("orderbook_GET", "/api/v1/depth"),
    ("orders_closed_GET", "/api/v1/orders/closed"),
    ("orders_id_GET", "/api/v1/orders/"),
    ("orders_open_GET", "/api/v1/orders/open"),
    ("peers_GET", "/api/v1/peers"),
    ("ticker_24h_GET", "/api/v1/ticker/24hr"),
    ("time_GET", "/api/v1/time"),
    ("tokens_GET", "/api/v1/tokens"),
    ("trades_GET", "/api/v1/trades"),
    ("transaction_GET", "/api/v1/tx/"),
    ("transaction_json_GET", "/api/v1/tx-json/"),
    ("transactions_GET", "/api/v1/transactions"),
    ("validators_GET", "/api/v1/validators")
  ]

  /** The public and the authenticated host of Bitfinex's v2 API, each
      followed by `/v2/`. */
  const BitfinexPublic := "api-pub.bitfinex.com/v2/"
  const BitfinexAuthenticated := "api.bitfinex.com/v2/"

  /** The rows of `table` with `host` put in front of every path. */
  function UnderHost(host: string, table: Table): Table {
    seq(|table|, i requires 0 <= i < |table| => (table[i].0, host + table[i].1))
  }

  /** `BitfinexFunctionsEndpoints`, in declaration order: its first seven
      paths are on the public host, the other thirty-one on the
      authenticated one, each written here without its host. */
  const BitfinexTable: Table :=
    UnderHost(BitfinexPublic, BitfinexPublicPaths) + UnderHost(BitfinexAuthenticated, BitfinexAuthenticatedPaths)

  const BitfinexPublicPaths: Table := [
    ("platform_status_GET", "platform/status"),
    ("tickers_GET", "tickers"),
    ("ticker_GET", "ticker/"),
    ("trades_GET", "trades/"),
    ("orderbook_GET", "book/"),
    ("stats_GET", "stats1"),
    ("candles_GET", "candles/trade")
  ]

  const BitfinexAuthenticatedPaths: Table := [
    ("foreign_exchange_rate_POST", "calc/fx"),
    ("market_average_price_POST", "calc/trade/avg"),
    ("alert_delete_POST", "auth/w/alert/price"),
    ("alert_list_POST", "auth/r/alerts"),
    ("alert_set_POST", "auth/w/alert/set"),
    ("calculate_available_balance_POST", "auth/calc/order/avail"),
    ("funding_credits_POST", "auth/r/funding/credits/"),
    ("funding_credits_history_POST", "auth/r/funding/credits"),
    ("funding_info_POST", "auth/r/info/funding/"),
    ("funding_loans_POST", "auth/r/funding/loans/"),
    ("funding_loans_history_POST", "auth/r/funding/loans"),
    ("funding_offers_POST", "auth/r/funding/offers/"),
    ("funding_offers_history_POST", "auth/r/funding/offers"),
    ("funding_trades_POST", "auth/r/funding/trades"),
    ("ledgers_POST", "auth/r/ledgers"),
    ("margin_info_POST", "auth/r/info/margin/"),
    ("order_trades_POST", "auth/r/order"),
    ("orders_POST", "auth/r/orders"),
    ("orders_history_POST", "auth/r/orders"),
    ("performance_POST", "auth/r/stats/perf::1D/hist"),
    ("positions_POST", "auth/r/positions"),
    ("positions_audit_POST", "auth/r/positions/audit"),
    ("positions_history_POST", "auth/r/positions/hist"),
    ("trades_POST", "auth/r/trades"),
    ("user_info_POST", "auth/r/info/user"),
    ("user_settings_delete_POST", "auth/w/settings/del"),
    ("user_settings_read_POST", "auth/r/settings"),
    ("user_settings_write_POST", "auth/w/settings/set"),
    ("wallet_movements_POST", "auth/r/movements"),
    ("wallets_POST", "auth/r/wallets"),
    ("wallets_history_POST", "auth/r/wallets/hist")
  ]
}
