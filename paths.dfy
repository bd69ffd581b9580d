/** How BinanceDEX and Bitfinex turn an operation name, its table path and the
    caller's arguments into the path actually requested, and (Bitfinex) into
    query parameters and a body (`_create_class_function`). */
module Paths {
  import opened Wrappers
  import opened Strings
  import opened OrderedDict
  import opened Json
  import opened Registry

  // ---------------------------------------------------------------- BinanceDEX

  /** The BinanceDEX names the if/elif chain completes with an argument, as written. */
  predicate DexSpliced(name: string) {
    name == "account_GET" || name == "account_sequence_GET" || name == "transactions_GET" || name == "transaction_json_GET" || name == "orders_id_GET"
  }

  /** The if/elif chain of BinanceDEX's `_endpoint_request`, as written. */
  function DexEndpoint(name: string, endpoint: string, address: Arg, hash: Arg, orderId: Arg): string {
    if name == "account_GET" then endpoint + Str(address)
    else if name == "account_sequence_GET" then endpoint + Str(address) + "/sequence"
    else if name == "transactions_GET" then endpoint + Str(hash)
    else if name == "transaction_json_GET" then endpoint + Str(hash)
    else if name == "orders_id_GET" then endpoint + Str(orderId)
    else endpoint
  }

  /** Splicing only appends to the table path: the account operations add
      `str(address)` (and `/sequence`), the transaction and order operations
      their own argument, and every other name keeps its table path. */
  lemma DexEndpointAppends(name: string, endpoint: string, address: Arg, hash: Arg, orderId: Arg)
    ensures StartsWith(DexEndpoint(name, endpoint, address, hash, orderId), endpoint)
    ensures name == "account_GET" ==> DexEndpoint(name, endpoint, address, hash, orderId) == endpoint + Str(address)
    ensures name == "account_sequence_GET" ==>
      DexEndpoint(name, endpoint, address, hash, orderId) == endpoint + Str(address) + "/sequence"
    ensures name == "transactions_GET" || name == "transaction_json_GET" ==>
      DexEndpoint(name, endpoint, address, hash, orderId) == endpoint + Str(hash)
    ensures name == "orders_id_GET" ==> DexEndpoint(name, endpoint, address, hash, orderId) == endpoint + Str(orderId)
    ensures !DexSpliced(name) ==> DexEndpoint(name, endpoint, address, hash, orderId) == endpoint
  {
    var p := DexEndpoint(name, endpoint, address, hash, orderId);
    assert p[..|endpoint|] == endpoint;
  }

  /** As written, the chain tests `transactions_GET` where the table's
      hash-taking entry is `transaction_GET`: the transaction lookup is sent to
      the bare `/api/v1/tx/`, and the transaction list gets `str(None)` glued on. */
  lemma DexTransactionAsWritten(hash: Arg)
    ensures DexTable[16] == ("transaction_GET", "/api/v1/tx/")
    ensures DexTable[18] == ("transactions_GET", "/api/v1/transactions")
    ensures DexEndpoint("transaction_GET", "/api/v1/tx/", None, hash, None) == "/api/v1/tx/"
    ensures DexEndpoint("transactions_GET", "/api/v1/transactions", None, None, None) == "/api/v1/transactionsNone"
    ensures EndsInSlash(DexTable[16].1) && !DexSpliced(DexTable[16].0)
  {
  }

  /** The names the chain was evidently meant to complete. */
  predicate DexSplicedFixed(name: string) {
    name == "account_GET" || name == "account_sequence_GET" || name == "transaction_GET" || name == "transaction_json_GET" || name == "orders_id_GET"
  }

  /** The chain with `transaction_GET` in place of `transactions_GET`. */
  function DexEndpointFixed(name: string, endpoint: string, address: Arg, hash: Arg, orderId: Arg): string {
    if name == "account_GET" then endpoint + Str(address)
    else if name == "account_sequence_GET" then endpoint + Str(address) + "/sequence"
    else if name == "transaction_GET" then endpoint + Str(hash)
    else if name == "transaction_json_GET" then endpoint + Str(hash)
    else if name == "orders_id_GET" then endpoint + Str(orderId)
    else endpoint
  }

  /** With the correction, exactly the BinanceDEX table paths that end in `/`
      are completed by an argument, and every other path is sent unchanged. */
  lemma DexSplicingMatchesTable(address: Arg, hash: Arg, orderId: Arg)
    ensures forall i :: 0 <= i < |DexTable| ==> DexRowFixed(i, address, hash, orderId)
    ensures DexEndpointFixed("transaction_GET", "/api/v1/tx/", address, hash, orderId) == "/api/v1/tx/" + Str(hash)
  {
    DexRowsFirst(address, hash, orderId);
    DexRowsSecond(address, hash, orderId);
    DexRowsThird(address, hash, orderId);
    DexRowsFourth(address, hash, orderId);
    forall i | 0 <= i < |DexTable|
      ensures DexRowFixed(i, address, hash, orderId)
    {
      assert i in {0, 1, 2, 3, 4, 5, 6, 7, 8, 9, 10, 11, 12, 13, 14, 15, 16, 17, 18, 19};
    }
  }

  /** The path ends in `/`: the table leaves it for an argument to complete. */
  predicate EndsInSlash(p: string) {
    |p| > 0 && p[|p| - 1] == '/'
  }

  /** Row `i` of the table is spliced exactly when its path ends in `/`, and
      is sent unchanged otherwise. */
  ghost predicate DexRowFixed(i: nat, address: Arg, hash: Arg, orderId: Arg)
    requires i < |DexTable|
  {
    (DexSplicedFixed(DexTable[i].0) <==> EndsInSlash(DexTable[i].1)) &&
    (!EndsInSlash(DexTable[i].1) ==> DexEndpointFixed(DexTable[i].0, DexTable[i].1, address, hash, orderId) == DexTable[i].1)
  }

  lemma DexRowsFirst(address: Arg, hash: Arg, orderId: Arg)
    ensures DexRowFixed(0, address, hash, orderId) &&
      DexRowFixed(1, address, hash, orderId) &&
      DexRowFixed(2, address, hash, orderId) &&
      DexRowFixed(3, address, hash, orderId) &&
      DexRowFixed(4, address, hash, orderId)
  {
  }

  lemma DexRowsSecond(address: Arg, hash: Arg, orderId: Arg)
    ensures DexRowFixed(5, address, hash, orderId) &&
      DexRowFixed(6, address, hash, orderId) &&
      DexRowFixed(7, address, hash, orderId) &&
      DexRowFixed(8, address, hash, orderId) &&
      DexRowFixed(9, address, hash, orderId)
  {
  }

  lemma DexRowsThird(address: Arg, hash: Arg, orderId: Arg)
    ensures DexRowFixed(10, address, hash, orderId) &&
      DexRowFixed(11, address, hash, orderId) &&
      DexRowFixed(12, address, hash, orderId) &&
      DexRowFixed(13, address, hash, orderId) &&
      DexRowFixed(14, address, hash, orderId)
  {
  }

  lemma DexRowsFourth(address: Arg, hash: Arg, orderId: Arg)
    ensures DexRowFixed(15, address, hash, orderId) &&
      DexRowFixed(16, address, hash, orderId) &&
      DexRowFixed(17, address, hash, orderId) &&
      DexRowFixed(18, address, hash, orderId) &&
      DexRowFixed(19, address, hash, orderId)
  {
  }

  // ---------------------------------------------------------------- Bitfinex

  /** The named parameters of Bitfinex's `_endpoint_request`; the ones spliced
      into the path by their `str()` form, the ones placed in a body as values. */
  datatype BfxArgs = BfxArgs(
    symbol: Arg, precision: Arg, key: Arg, size: Arg, section: Arg,
    end: Json, timeframe: Arg, orderId: Arg, currency: Arg, price: Arg,
    keys: Json, ids: Json, body: Json, settings: Json)

  /** What `_endpoint_request` hands to `_request`: path, query parameters, body. */
  datatype Dispatch = Dispatch(endpoint: string, params: Dict<Json>, body: Json)

  /** Operations whose keyword arguments move from the query into the body. */
  predicate BodySplitOp(name: string) {
    name == "foreign_exchange_rate_POST" || name == "positions_history_POST" || name == "alert_set_POST"
    || name == "calculate_available_balance_POST"
  }

  /** Operations that append `/<symbol>/hist`, or `/hist` without a symbol. */
  predicate HistoryOp(name: string) {
    name == "orders_history_POST" || name == "trades_POST" || name == "funding_offers_history_POST"
    || name == "funding_loans_history_POST" || name == "funding_credits_history_POST"
    || name == "funding_trades_POST" || name == "ledgers_POST"
  }

  /** Operations that append `str(symbol)`. */
  predicate SymbolOp(name: string) {
    name == "ticker_GET" || name == "funding_offers_POST" || name == "funding_loans_POST"
    || name == "funding_credits_POST" || name == "funding_info_POST"
  }

  /** The public operations with a branch of their own. */
  predicate PublicOp(name: string) {
    name == "trades_GET" || name == "orderbook_GET" || name == "stats_GET" || name == "candles_GET"
  }

  /** The authenticated operations with a branch of their own. */
  predicate AuthOp(name: string) {
    name == "wallets_history_POST" || name == "positions_audit_POST" || name == "order_trades_POST"
    || name == "margin_info_POST" || name == "wallet_movements_POST" || name == "alert_delete_POST"
    || name == "user_settings_read_POST" || name == "user_settings_write_POST" || name == "user_settings_delete_POST"
  }

  /** Every name the if/elif chain mentions. */
  predicate ChainOp(name: string) {
    PublicOp(name) || AuthOp(name) || SymbolOp(name) || BodySplitOp(name) || HistoryOp(name)
  }

  /** `"/" + x + "/hist" if x else "/hist"`. */
  function HistSuffix(x: Arg): string {
    if ArgTruthy(x) then "/" + Str(x) + "/hist" else "/hist"
  }

  /** Which branch of Bitfinex's if/elif chain a name takes, in the chain's order. */
  datatype BfxRule =
    | TradesHist | Orderbook | Stats | Candles | WalletsHistory | PositionsAudit | OrderTrades
    | MarginInfo | WalletMovements | AlertDelete | SettingsRead | SettingsWrite | SettingsDelete
    | AppendSymbol | BodySplit | History | Unchanged

  function RuleOf(name: string): BfxRule {
    if name == "trades_GET" then TradesHist
    else if name == "orderbook_GET" then Orderbook
    else if name == "stats_GET" then Stats
    else if name == "candles_GET" then Candles
    else if name == "wallets_history_POST" then WalletsHistory
    else if name == "positions_audit_POST" then PositionsAudit
    else if name == "order_trades_POST" then OrderTrades
    else if name == "margin_info_POST" then MarginInfo
    else if name == "wallet_movements_POST" then WalletMovements
    else if name == "alert_delete_POST" then AlertDelete
    else if name == "user_settings_read_POST" then SettingsRead
    else if name == "user_settings_write_POST" then SettingsWrite
    else if name == "user_settings_delete_POST" then SettingsDelete
    else if SymbolOp(name) then AppendSymbol
    else if BodySplitOp(name) then BodySplit
    else if HistoryOp(name) then History
    else Unchanged
  }

  /** A name outside the chain takes no branch. */
  lemma RuleOfUnchanged(name: string)
    ensures RuleOf(name) == Unchanged <==> !ChainOp(name)
  {
    if PublicOp(name) {
      RuleOfPublic(name);
    } else if AuthOp(name) {
      RuleOfAuth(name);
    } else if SymbolOp(name) {
      RuleOfSymbol(name);
    } else if BodySplitOp(name) {
      RuleOfBodySplit(name);
    } else if HistoryOp(name) {
      RuleOfHistory(name);
    } else {
      RuleOfNone(name);
    }
  }

  lemma RuleOfPublic(name: string)
    requires PublicOp(name)
    ensures RuleOf(name) != Unchanged
  {
  }

  lemma RuleOfAuth(name: string)
    requires AuthOp(name)
    ensures RuleOf(name) != Unchanged
  {
  }

  lemma RuleOfNone(name: string)
    requires !ChainOp(name)
    ensures RuleOf(name) == Unchanged
  {
  }

  /** The five symbol names reach their branch: no earlier test catches them. */
  lemma RuleOfSymbol(name: string)
    ensures RuleOf(name) == AppendSymbol <==> SymbolOp(name)
  {
    if name == "ticker_GET" {
      RuleOfTicker(name);
    } else if name == "funding_offers_POST" {
      RuleOfFundingOffers(name);
    } else if name == "funding_loans_POST" {
      RuleOfFundingLoans(name);
    } else if name == "funding_credits_POST" {
      RuleOfFundingCredits(name);
    } else if name == "funding_info_POST" {
      RuleOfFundingInfo(name);
    }
  }

  lemma RuleOfTicker(name: string)
    requires name == "ticker_GET"
    ensures RuleOf(name) == AppendSymbol
  {
  }

  lemma RuleOfFundingOffers(name: string)
    requires name == "funding_offers_POST"
    ensures RuleOf(name) == AppendSymbol
  {
  }

  lemma RuleOfFundingLoans(name: string)
    requires name == "funding_loans_POST"
    ensures RuleOf(name) == AppendSymbol
  {
  }

  lemma RuleOfFundingCredits(name: string)
    requires name == "funding_credits_POST"
    ensures RuleOf(name) == AppendSymbol
  {
  }

  lemma RuleOfFundingInfo(name: string)
    requires name == "funding_info_POST"
    ensures RuleOf(name) == AppendSymbol
  {
  }

  /** The four body-split names reach their branch: no earlier test catches them. */
  lemma RuleOfBodySplit(name: string)
    ensures RuleOf(name) == BodySplit <==> BodySplitOp(name)
  {
    if name == "foreign_exchange_rate_POST" {
      RuleOfForeignExchangeRate(name);
    } else if name == "positions_history_POST" {
      RuleOfPositionsHistory(name);
    } else if name == "alert_set_POST" {
      RuleOfAlertSet(name);
    } else if name == "calculate_available_balance_POST" {
      RuleOfCalculateAvailableBalance(name);
    }
  }

  lemma RuleOfForeignExchangeRate(name: string)
    requires name == "foreign_exchange_rate_POST"
    ensures RuleOf(name) == BodySplit
  {
  }

  lemma RuleOfPositionsHistory(name: string)
    requires name == "positions_history_POST"
    ensures RuleOf(name) == BodySplit
  {
  }

  lemma RuleOfAlertSet(name: string)
    requires name == "alert_set_POST"
    ensures RuleOf(name) == BodySplit
  {
  }

  lemma RuleOfCalculateAvailableBalance(name: string)
    requires name == "calculate_available_balance_POST"
    ensures RuleOf(name) == BodySplit
  {
  }

  /** The seven history names reach their branch: no earlier test catches them. */
  lemma RuleOfHistory(name: string)
    ensures RuleOf(name) == History <==> HistoryOp(name)
  {
    if name == "orders_history_POST" {
      RuleOfOrdersHistory(name);
    } else if name == "trades_POST" {
      RuleOfTrades(name);
    } else if name == "funding_offers_history_POST" {
      RuleOfFundingOffersHistory(name);
    } else if name == "funding_loans_history_POST" {
      RuleOfFundingLoansHistory(name);
    } else if name == "funding_credits_history_POST" {
      RuleOfFundingCreditsHistory(name);
    } else if name == "funding_trades_POST" {
      RuleOfFundingTrades(name);
    } else if name == "ledgers_POST" {
      RuleOfLedgers(name);
    }
  }

  lemma RuleOfOrdersHistory(name: string)
    requires name == "orders_history_POST"
    ensures RuleOf(name) == History
  {
  }

  lemma RuleOfTrades(name: string)
    requires name == "trades_POST"
    ensures RuleOf(name) == History
  {
  }

  lemma RuleOfFundingOffersHistory(name: string)
    requires name == "funding_offers_history_POST"
    ensures RuleOf(name) == History
  {
  }

  lemma RuleOfFundingLoansHistory(name: string)
    requires name == "funding_loans_history_POST"
    ensures RuleOf(name) == History
  {
  }

  lemma RuleOfFundingCreditsHistory(name: string)
    requires name == "funding_credits_history_POST"
    ensures RuleOf(name) == History
  {
  }

  lemma RuleOfFundingTrades(name: string)
    requires name == "funding_trades_POST"
    ensures RuleOf(name) == History
  {
  }

  lemma RuleOfLedgers(name: string)
    requires name == "ledgers_POST"
    ensures RuleOf(name) == History
  {
  }

  /** The if/elif chain of Bitfinex's `_endpoint_request`. `params` starts as a
      copy of the keyword arguments and `body` as the caller's `body`; a Python
      dict's copy has the same entries, so copies are the entries themselves. */
  function BitfinexDispatch(name: string, endpoint: string, a: BfxArgs, kwargs: Dict<Json>): Result<Dispatch> {
    Apply(RuleOf(name), endpoint, a, kwargs)
  }

  /** The body of one branch of the chain. */
  function Apply(rule: BfxRule, endpoint: string, a: BfxArgs, kwargs: Dict<Json>): Result<Dispatch> {
    var d := Dispatch(endpoint, kwargs, a.body);
    match rule
    case TradesHist => Ok(d.(endpoint := endpoint + Str(a.symbol) + "/hist"))
    case Orderbook => Ok(d.(endpoint := endpoint + Str(a.symbol) + Str(a.precision)))
    case Stats =>
      Ok(d.(endpoint := endpoint + "/" + Str(a.key) + ":" + Str(a.size) + ":" + Str(a.symbol) + "/" + Str(a.section)))
    case Candles =>
      Ok(d.(endpoint := endpoint + ":" + Str(a.timeframe) + ":" + Str(a.symbol) + "/" + Str(a.section)))
    case WalletsHistory =>
      (match Copy(a.end)
       case Some(fields) => Ok(d.(body := JObj(fields)))
       case None =>
         if a.end.JStr? then Err(ValueError("dictionary update sequence element #0 has length 1; 2 is required"))
         else Err(TypeError("dict.update() argument is not a mapping")))
    case PositionsAudit => Ok(d.(body := JObj([("id", a.ids)])))
    case OrderTrades => Ok(d.(endpoint := endpoint + "/" + Str(a.symbol) + ":" + Str(a.orderId) + "/trades"))
    case MarginInfo => Ok(d.(endpoint := endpoint + Str(a.key)))
    case WalletMovements => Ok(d.(endpoint := endpoint + HistSuffix(a.currency)))
    case AlertDelete => Ok(d.(endpoint := endpoint + ":" + Str(a.symbol) + ":" + Str(a.price) + "/del"))
    case SettingsRead => Ok(d.(body := JObj([("keys", a.keys)])))
    case SettingsWrite => Ok(d.(body := JObj([("settings", a.settings)])))
    case SettingsDelete => Ok(d.(body := JObj([("settings", a.settings)])))
    case AppendSymbol => Ok(d.(endpoint := endpoint + Str(a.symbol)))
    case BodySplit => Ok(Dispatch(endpoint, [], JObj(kwargs)))
    case History => Ok(d.(endpoint := endpoint + HistSuffix(a.symbol)))
    case Unchanged => Ok(d)
  }

  /** A Bitfinex call fails only for `wallets_history_POST` with an `end` that
      `body.update` refuses (anything but a dict, `""` or `[]`; a non-empty
      string raises `ValueError`, the rest `TypeError`), and the table path is
      always a prefix of the requested path. */
  lemma BitfinexDispatchFails(name: string, endpoint: string, a: BfxArgs, kwargs: Dict<Json>)
    ensures BitfinexDispatch(name, endpoint, a, kwargs).Err? <==> name == "wallets_history_POST" && Copy(a.end).None?
    ensures BitfinexDispatch(name, endpoint, a, kwargs).Ok? ==>
      StartsWith(BitfinexDispatch(name, endpoint, a, kwargs).value.endpoint, endpoint)
  {
    ApplyExtends(RuleOf(name), endpoint, a, kwargs);
  }

  lemma ApplyExtends(rule: BfxRule, endpoint: string, a: BfxArgs, kwargs: Dict<Json>)
    ensures Apply(rule, endpoint, a, kwargs).Err? <==> rule == WalletsHistory && Copy(a.end).None?
    ensures Apply(rule, endpoint, a, kwargs).Ok? ==> StartsWith(Apply(rule, endpoint, a, kwargs).value.endpoint, endpoint)
  {
    var r := Apply(rule, endpoint, a, kwargs);
    if r.Ok? {
      var p := r.value.endpoint;
      assert p[..|endpoint|] == endpoint;
    }
  }

  /** History operations append `/<symbol>/hist`, or `/hist` when no symbol is given. */
  lemma BitfinexHistoryPath(name: string, endpoint: string, a: BfxArgs, kwargs: Dict<Json>)
    requires HistoryOp(name)
    ensures ArgTruthy(a.symbol) ==>
      BitfinexDispatch(name, endpoint, a, kwargs) == Ok(Dispatch(endpoint + "/" + a.symbol.value + "/hist", kwargs, a.body))
    ensures !ArgTruthy(a.symbol) ==>
      BitfinexDispatch(name, endpoint, a, kwargs) == Ok(Dispatch(endpoint + "/hist", kwargs, a.body))
  {
    RuleOfHistory(name);
    assert endpoint + HistSuffix(a.symbol) == endpoint + "/" + Str(a.symbol) + "/hist" <== ArgTruthy(a.symbol);
  }

  /** The four body-split operations send no query and carry the keyword
      arguments as the body; every other operation sends them as the query. */
  lemma BitfinexParamsOrBody(name: string, endpoint: string, a: BfxArgs, kwargs: Dict<Json>)
    ensures BodySplitOp(name) ==> BitfinexDispatch(name, endpoint, a, kwargs) == Ok(Dispatch(endpoint, [], JObj(kwargs)))
    ensures !BodySplitOp(name) && BitfinexDispatch(name, endpoint, a, kwargs).Ok? ==>
      BitfinexDispatch(name, endpoint, a, kwargs).value.params == kwargs
  {
    RuleOfBodySplit(name);
  }

  /** A name the chain does not mention keeps its path, query and the caller's body. */
  lemma BitfinexUnlisted(name: string, endpoint: string, a: BfxArgs, kwargs: Dict<Json>)
    requires !ChainOp(name)
    ensures BitfinexDispatch(name, endpoint, a, kwargs) == Ok(Dispatch(endpoint, kwargs, a.body))
  {
    RuleOfUnchanged(name);
  }

  /** `urlparse("https://" + endpoint).path`: everything from the first `/`
      after the host (`/` when there is none, as requests normalises it). */
  function UrlPath(endpoint: string): string {
    match IndexOf(endpoint, '/')
    case None => "/"
    case Some(i) => endpoint[i..]
  }

  lemma HostPath(host: string, rest: string)
    requires '/' !in host
    ensures UrlPath(host + "/" + rest) == "/" + rest
  {
    var e := host + "/" + rest;
    assert e[|host|] == '/' && e[..|host|] == host;
    IndexOfIs(e, '/', |host|);
  }
}
