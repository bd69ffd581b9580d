# cxwrap — a Dafny model of the exchange wrappers

`cryptowrapper.py` exposes the REST endpoints of seven cryptocurrency APIs
(CoinMarketCap, CryptoCompare, BitMEX, Binance, BinanceDEX, Bitfinex and
Deribit) as generated methods. Each wrapper class has the same four parts:

- a table of operation names and paths, from which `__init__` derives an HTTP verb per name;
- a per-operation function that splices positional arguments into the path;
- a signer that adds HMAC headers or a signature parameter to the prepared request;
- a response handler and a retry counter around `session.send`.

A facade, `CryptoWrapper`, selects a wrapper by name.

The model covers those parts as Dafny values and functions, plus one class
for the retry state:

| file | module | models |
|---|---|---|
| `wrappers.dfy` | `Wrappers` | `Option`, `Result`, and the exceptions a call can raise, as values |
| `strings.dfy` | `Strings` | `in` on strings, `str()`/`int()` on integers, truncation, `split`/`join` |
| `ordered_dict.dfy` | `OrderedDict` | Python's insertion-ordered `dict`: `get`, `d[k] = v`, `update` |
| `json.dfy` | `Json` | the values `json.loads` yields, and Python truthiness |
| `registry.dfy` | `Registry` | the endpoint tables and the verb-deriving loop in every `__init__` |
| `paths.dfy` | `Paths` | the BinanceDEX and Bitfinex path splicing, and Bitfinex's query/body split |
| `auth.dfy` | `Auth` | the BitMEX, Binance, Bitfinex and Deribit signers, each with the server-side check it must pass (for Bitfinex, passed by the corrected signer) |
| `bitfinex_request.dfy` | `BitfinexRequest` | Bitfinex's `_request` from the dispatched endpoint to the signed request |
| `response.dfy` | `Response` | the shared `_handle_response`, and the BitMEX and Bitfinex variants |
| `retry.dfy` | `Retry` | `_request`'s retry logic: a recursive specification, and the class `Requester` whose loop is proved equal to it |
| `facade.dfy` | `Facade` | the seven-entry `_API_WRAPPERS` lookup |

Inputs the program takes from outside become parameters:

- the keyed digests (`hmac.new(...).hexdigest()`, over SHA-256 or SHA-384) are `mac(key, message)`;
- `time()` is `now: real`;
- `uuid4().hex` is `nonce`;
- `json.loads(text)` is the `parsed` field of a response (`None` where it raises);
- `str()` of a non-text body, as Deribit's f-string prints it, is `format`;
- the encoding of Bitfinex's query parameters is `query`;
- `json.dumps` of a body, used only by the corrected Bitfinex signer, is `encode`;
- each `session.send` is `send(k)` for the `k`-th attempt of a call.

Three behaviours of the code are easy to misread. The model follows the code:

- With `max_retries = N > 0`, a run of falsy responses gets N sends in total: the counter is incremented and then compared with `>=` (src/cryptowrapper.py:159-161, `Retry.FreshCounterExhausts`).
- `retry()` returns the result of the nested `_request` (src/cryptowrapper.py:163), but the caller drops it and returns its own falsy response (src/cryptowrapper.py:193-195, `Retry.NestedResultDiscarded`, and the first row under Findings).
- With a key and no secret, every signing wrapper raises `AttributeError` on every route, Binance routes that would not be signed included (`Auth.BinanceAuth`, `Auth.AuthenticateSignsOrFails`).

## Model

| member | source | states |
|---|---|---|
| Registry.VerbSuffixIff | src/cryptowrapper.py:117-120 | the verb-suffix pattern yields verb v exactly when the name ends in v's name |
| Registry.BuildOperations | src/cryptowrapper.py:115-122 | the `__init__` loop: `verb` is rebound only on a match, so an unsuffixed name reuses the previous verb, and a first name without a suffix raises `NameError`; the loop's result equals `Derive` |
| Registry.DeriveFails | src/cryptowrapper.py:115-122 | the loop raises if and only if the table's first name has no verb suffix |
| Registry.DeriveBoundOk | src/cryptowrapper.py:115-122 | once a verb is bound, no later entry can make the loop fail |
| Registry.DeriveShape | src/cryptowrapper.py:115-122 | one operation per entry, with the entry's own name and path; a suffixed name gets its suffix; an unsuffixed one gets the previous entry's verb |
| Registry.InheritsPrevious | src/cryptowrapper.py:895-903 | in a table whose first name is suffixed, an unsuffixed entry is sent with the verb of the entry before it |
| Registry.BinanceTradesAggregateIsGet | src/cryptowrapper.py:790-791 | Binance's `trades_aggregate` has no suffix and is sent as `GET` to `/api/v1/aggTrades`, inheriting from `trades_GET` |
| Registry.BinanceTableEntries | src/cryptowrapper.py:783-791 | the Binance table has 36 names, starting with `exchange_information_GET`, and `trades_aggregate` follows `trades_GET` |
| Paths.DexEndpointAppends | src/cryptowrapper.py:1089-1106 | BinanceDEX splicing only appends: `account_GET` adds `str(address)`, `account_sequence_GET` adds it plus `/sequence`, and the transaction and order names add their argument; every other name keeps its path |
| Paths.DexTransactionAsWritten | src/cryptowrapper.py:1097-1098 | as written, the chain tests `transactions_GET`, so `transaction_GET` is sent to the bare `/api/v1/tx/` and the transaction list gets `None` appended |
| Paths.DexSplicingMatchesTable | src/cryptowrapper.py:1041-1063 | with `transaction_GET` in the chain, exactly the table paths ending in `/` get an argument; every other path is sent unchanged |
| Paths.RuleOfUnchanged | src/cryptowrapper.py:1365-1431 | a Bitfinex name takes no branch of the chain exactly when the chain never mentions it |
| Paths.RuleOfSymbol | src/cryptowrapper.py:1406-1412 | exactly the five symbol names (the source lists `funding_loans_POST` twice) reach the `str(symbol)` branch; no earlier test catches them |
| Paths.RuleOfBodySplit | src/cryptowrapper.py:1414-1421 | exactly the four body-split names reach the body-split branch; no earlier test catches them |
| Paths.RuleOfHistory | src/cryptowrapper.py:1423-1431 | exactly the seven history names reach the history branch |
| Paths.BitfinexDispatchFails | src/cryptowrapper.py:1377-1379 | a Bitfinex call fails exactly for `wallets_history_POST` with an `end` that `dict.update` refuses (anything but a dict, `""` or `[]`); otherwise the table path is a prefix of the requested path |
| Paths.ApplyExtends | src/cryptowrapper.py:1365-1431 | every branch of the chain only appends to the path, and only the `end` update can raise |
| Paths.BitfinexHistoryPath | src/cryptowrapper.py:1423-1431 | history names append `/<symbol>/hist` when a symbol is given, and `/hist` otherwise |
| Paths.BitfinexParamsOrBody | src/cryptowrapper.py:1414-1421 | the body-split names send no query and carry their keyword arguments as the body; every other name sends them as the query |
| Paths.BitfinexUnlisted | src/cryptowrapper.py:1361-1433 | a name outside the chain keeps its path, its query and the caller's body |
| Paths.HostPath | src/cryptowrapper.py:1631 | `"https://" + "host/rest"` has URL path `/rest`, which is the path the Bitfinex signer reads |
| Auth.SignedPathRoundTrip | src/cryptowrapper.py:643-645 | the signed path is `path?query` (or `path` alone when the query is empty), and splitting it at the first `?` gives back both parts |
| Auth.BitmexAuth | src/cryptowrapper.py:640-658 | a body error comes first, then a missing secret; otherwise only the headers change, `api-key` and `api-expires` (`str(int(now + 5))`) are set, and other headers are kept |
| Auth.BitmexSignedAccepted | src/cryptowrapper.py:646-654 | BitMEX accepts the signed request for at least four seconds: the expiry header reads back as an integer still in the future, and the signature is the digest of `verb + path + expires + data` |
| Auth.BitmexSignedExpires | src/cryptowrapper.py:646 | the same request is refused once five seconds have passed |
| Auth.BinanceAuth | src/cryptowrapper.py:908-927 | fails exactly when no secret is set; `X-MBX-APIKEY` is always set; the query changes if and only if the route is one `ShouldSign` accepts, and on such a route it becomes the old query followed by `signature=<digest of the old query>` |
| Auth.BinanceSignatureRecovered | src/cryptowrapper.py:913-927 | on a signed route, the last query pair is `signature=<digest>`; stripping it gives back the original query and the digest of exactly that query |
| Auth.BinanceOrderSigned | src/cryptowrapper.py:921-925 | `/api/v3/order` is signed |
| Auth.BinanceWithdrawSigned | src/cryptowrapper.py:921-925 | `/wapi/v3/withdraw.html` is signed |
| Auth.BinancePriceUnsigned | src/cryptowrapper.py:921-925 | `/api/v3/avgPrice` is not signed, although it is a v3 route |
| Auth.BinanceStatusUnsigned | src/cryptowrapper.py:921-925 | `/wapi/v3/systemStatus.html` is not signed |
| Auth.BinanceV1Unsigned | src/cryptowrapper.py:921-925 | a v1 route such as `/api/v1/depth` is not signed |
| Auth.BitfinexAuth | src/cryptowrapper.py:1559-1576 | as written: a body error comes first, then a missing secret; otherwise only the headers change, and `bfx-apikey`, `bfx-nonce` (`str(int(now + 5000))`) and `bfx-signature` (the digest of `"/api/" + path + nonce + data`) are set |
| Auth.BitfinexDictBodyFails | src/cryptowrapper.py:1565-1567 | as written, every signed call carrying a non-empty dict body raises `TypeError` |
| Auth.BitfinexDoubleSlash | src/cryptowrapper.py:1567 | as written, a `/v2/...` path is signed as `/api//v2/...` |
| Auth.BitfinexAuthFixed | src/cryptowrapper.py:1559-1576 | corrected signer: fails only for a missing secret, and signs `"/api" + path + nonce + json(body)` |
| Auth.BitfinexFixedAccepted | src/cryptowrapper.py:1559-1576 | corrected: Bitfinex's check passes on the signed request, whose signature is the digest of `/api/` + the path without its leading slash + its own `bfx-nonce` + the JSON body |
| Auth.BitfinexFixedLayout | src/cryptowrapper.py:1567 | the corrected message is `/api/` + the path without its leading slash + nonce + body; the as-written one has a doubled slash |
| Auth.DeribitMessageFields | src/cryptowrapper.py:1883 | the message `ts\nnonce\nverb\npath\ndata\n` splits back into exactly its five fields |
| Auth.DeribitHeaderRoundTrip | src/cryptowrapper.py:1890-1891 | `deri-hmac-sha256 id=..,ts=..,nonce=..,sig=..` parses back to the key, timestamp, nonce and signature written into it |
| Auth.DeribitAuth | src/cryptowrapper.py:1873-1892 | fails exactly when no secret is set, since the f-string prints any body; otherwise only `Authorization` is set, to the header built from `int(now * 1000)`, the nonce and the digest of the message holding the printed body |
| Auth.DeribitSignedAccepted | src/cryptowrapper.py:1876-1892 | Deribit's check passes on the signed request: the header names the key, and its signature is the digest of the message rebuilt from the header's own timestamp and nonce |
| Auth.Authenticate | src/cryptowrapper.py:726-727 | no key means no change; CoinMarketCap, CryptoCompare and BinanceDEX never sign per request; signing never changes verb, path or body |
| Auth.AuthenticateSignsOrFails | src/cryptowrapper.py:984-985 | with a key configured, a signing exchange either adds its key or signature header (and, on a route Binance signs, the `signature=` query parameter) or raises, and it always raises when the secret is missing |
| Response.TagAll | src/cryptowrapper.py:139-143 | the tagging comprehension succeeds exactly when every item can be copied; it keeps the length and tags each item in place |
| Response.CopyAll | src/cryptowrapper.py:689 | `[dict(item) for item in response]` succeeds exactly when every item can be copied, and keeps the length |
| Response.HandleClassifies | src/cryptowrapper.py:127-154 | for every exchange: a terminal status (400, 401, 403, 404, 429, 500) returns the raw text; any other error status, or a body that is not JSON, returns `None` |
| Response.SharedTagsObject | src/cryptowrapper.py:145-146 | a successful object gets `cached` set to the response's `from_cache`; every other key reads as parsed, and `cached` is added last if it was absent |
| Response.SharedTagsList | src/cryptowrapper.py:139-143 | a successful list of objects comes back with the same length, each item a copy tagged with `cached` |
| Response.SharedUntaggedList | src/cryptowrapper.py:139-154 | a list with an item `dict()` refuses comes back untagged, as parsed |
| Response.SharedAsyncUntouched | src/cryptowrapper.py:138 | in asynchronous mode the parsed value is returned unchanged |
| Response.SharedFalsyIff | src/cryptowrapper.py:127-154 | the handled value is falsy exactly for an empty terminal text, another error status, a body that is not JSON, or a falsy parsed value other than an object |
| Response.BitmexAddsRateLimit | src/cryptowrapper.py:669-690 | with the three rate-limit headers present, a list comes back as its tagged items (synchronous) or its copied items (asynchronous), in order, followed by the `ratelimit` object |
| Response.BitmexTagsObject | src/cryptowrapper.py:676-684 | a synchronous object gains `cached` and `ratelimit`, and every other key reads as parsed |
| Response.BitmexMissingHeader | src/cryptowrapper.py:669-673 | when any rate-limit header is missing, the lookup raises after parsing, so the parsed value is returned untagged |
| Response.BitmexAsyncObject | src/cryptowrapper.py:688-690 | asynchronous BitMEX iterates a parsed object's keys; a non-empty key cannot be copied, so the object comes back as parsed |
| Response.BitfinexWraps | src/cryptowrapper.py:1587-1598 | Bitfinex success returns an object (always truthy, so never retried): exactly `{"response": parsed, "cached": from_cache}` in synchronous mode and `{"response": parsed}` in asynchronous mode |
| BitfinexRequest.SignIsAuthenticate | src/cryptowrapper.py:1635-1636 | Bitfinex's `if self.api_key:` signing step is the Bitfinex arm of `Auth.Authenticate` |
| BitfinexRequest.BodySplitSigningFails | src/cryptowrapper.py:1565-1567 | as written, a body-split call with keyword arguments gets them as a dict body and, with a key configured, raises `TypeError` while signing; without a key it reaches `send` unsigned |
| BitfinexRequest.RequestPath | src/cryptowrapper.py:1631-1633 | a prepared request whose endpoint extends `host/v2/rest` has a URL path starting with `/v2/rest`; every table row has that form (`BitfinexRequest.BitfinexTableHosted`) and dispatch keeps the row's path as a prefix (`Paths.BitfinexDispatchFails`) |
| BitfinexRequest.SignedMessageDoubled | src/cryptowrapper.py:1563-1567 | as written, a signed Bitfinex request carries the digest of a message that starts with `/api//v2/` |
| BitfinexRequest.FixedSignsEveryCall | src/cryptowrapper.py:1559-1576 | corrected: with a key and a secret every call is signed, dict bodies included, and the signed message starts with `/api/v2/` |
| BitfinexRequest.FixedRequestAccepted | src/cryptowrapper.py:1631-1636 | corrected: every dispatched request signed with a key and a secret passes Bitfinex's check |
| BitfinexRequest.BitfinexTableHosted | src/cryptowrapper.py:1282-1330 | each of the 38 table paths starts with `api-pub.bitfinex.com/v2/` or `api.bitfinex.com/v2/` (the table is written as these two hosts' rows, in declaration order) |
| BitfinexRequest.HostSplit | src/cryptowrapper.py:1282-1330 | a path on one of the two hosts is `host/v2/rest` with no slash in `host`, the form `RequestPath` takes |
| BitfinexRequest.TableSignedDoubled | src/cryptowrapper.py:1546-1567 | as written, a signed call to any row of the table carries the digest of a message that starts with `/api//v2/` |
| BitfinexRequest.TableFixedAccepted | src/cryptowrapper.py:1546-1576 | corrected: a call to any row of the table made with a key and a secret is signed and passes Bitfinex's check |
| Retry.Requester.constructor | src/cryptowrapper.py:108-110 | the counter starts at 0, with the configured maximum |
| Retry.Requester.Request | src/cryptowrapper.py:156-197 | the loop's result, final counter and number of sends equal those of the recursive `_request` / `retry()` specification; the maximum is unchanged |
| Retry.NoRetriesOneAttempt | src/cryptowrapper.py:192-195 | with `max_retries <= 0`: exactly one send, its handled response returned whatever it is, and the counter untouched |
| Retry.AllFalsyExhausts | src/cryptowrapper.py:157-163 | from counter k, the falsy sends k to n-1 end in "Retry limit hit." after n sends in total, with the counter at n |
| Retry.FreshCounterExhausts | src/cryptowrapper.py:157-163 | with `max_retries = n > 0` and a fresh counter, n falsy responses take exactly n sends, then "Retry limit hit." |
| Retry.NormalReturnResets | src/cryptowrapper.py:192-197 | with retries on, a normal return leaves the counter at 0 and returns the handled response of the call's own first send |
| Retry.NestedResultDiscarded | src/cryptowrapper.py:193-195 | as written, a falsy first response followed by a truthy one returns the falsy first response, after two sends |
| Retry.StaleCounterAfterLimit | src/cryptowrapper.py:159-161 | as written, after "Retry limit hit." the counter stays at the limit, and the next call raises after a single falsy response |
| Retry.TerminalNotRetried | src/cryptowrapper.py:148-154 | a terminal status with a non-empty body is returned after one send |
| Retry.RequestFixedProperties | src/cryptowrapper.py:156-197 | corrected: with retries on, only the truthy last response is ever returned, and every normal return or limit exit leaves the counter at 0 |
| Retry.FixedReturnsRetried | src/cryptowrapper.py:193-195 | corrected: the falsy-then-truthy sequence returns the truthy second response |
| Retry.FixedCounterFresh | src/cryptowrapper.py:159-161 | corrected: after an exhausted call, the next one gets its full n sends again |
| Retry.FixedExhausts | src/cryptowrapper.py:157-163 | corrected: n falsy responses take n sends, then raise, leaving the counter cleared |
| Facade.Lookup | src/cryptowrapper.py:2038-2041 | an unknown name raises `ValueError("API not supported: <name>")`; a known name selects its own table entry |
| Facade.TableLayout | src/cryptowrapper.py:2025-2033 | seven entries, each listed under its own name, with no wrapper repeated |
| Facade.LookupRoundTrip | src/cryptowrapper.py:2025-2041 | every wrapper is reached through its table name, and through no other name |

## Left out

- HTTP itself is not modelled: sessions, `requests-cache` and its sqlite file, timeouts, URL encoding of parameters, and header case-insensitivity. The model starts from the `urlparse` of the prepared URL and ends at the value `send` returns. For Bitfinex the path is taken from the spliced endpoint before `prepare_url` percent-encodes it, so a path argument holding a space or another character `requests` quotes is signed unquoted in the model (`%20` in the code).
- The digests and the clock are parameters. `hmac`, SHA-256/384, `time()`, `uuid4()`, `json.loads` and `json.dumps` are not computed.
- The asynchronous `_request_async` variants are not modelled; the asynchronous branches of the response handlers are.
- `time.sleep` between retries, logging, `setattr` of the generated methods, and the regular-expression engine are not modelled. The verb suffix is an explicit end-of-name test.
- The endpoint tables of CoinMarketCap, CryptoCompare, BitMEX and Deribit are not written out; only Binance, BinanceDEX and Bitfinex, where splicing or verb inheritance depends on them. `Derive` applies to any table.
- CoinMarketCap's and CryptoCompare's session-level key headers are not modelled; they are set once per session, not per request.
- Positional path arguments are modelled by their `str()` form. A non-string argument is represented by that string. The `if symbol:` / `if _hash:` tests are made on that form too, so an argument of `0`, `False` or `[]` is truthy in the model (its `str()` is non-empty) but falsy in Python.
- Json.Copy: `dict(item)` on a non-empty list of key/value pairs is modelled as raising, although Python accepts it. Dict keys are strings only.
- Json: numbers are integers; the floats `json.loads` can yield are not modelled. The handlers only test a number's truthiness and copy it, so the distinction is not observed.
- Paths.BitfinexDispatch: an `end` that is a non-empty list of pairs would be accepted by `dict.update`; the model accepts a dict, `""` and `[]` and treats every other `end` as raising: `ValueError` for a non-empty string, `TypeError` otherwise. Paths.BitfinexDispatchFails and Paths.ApplyExtends inherit this.
- Auth.BodyText: a `bytes` body is not modelled; bodies are JSON values.
- Auth.BinanceSignatureRecovered: requires that the digest holds no `&`. A hex digest can never hold one, but the model does not prove the digest is hex.
- Auth.DeribitSignedAccepted: requires that the key, nonce and digest hold no comma. A `uuid4().hex` nonce and a hex digest never do.
- Retry.Requester.Request: an exception from `send` leaves the counter as it stood, which matches the code. The pause is not modelled.

## Findings

| source | as written | input that shows it | evidently intended | confidence | as-written member | corrected member |
|---|---|---|---|---|---|---|
| src/cryptowrapper.py:193-195 | `retry()` is called but its result is not returned | first send gives a 503, the second a truthy object, `max_retries = 3` | the retried response is returned | high, not executed | Retry.NestedResultDiscarded | Retry.FixedReturnsRetried |
| src/cryptowrapper.py:159-161 | "Retry limit hit." leaves `self.retries` at the limit | a call that exhausts n retries, then another call whose first response is falsy | each call starts with a full retry budget | medium, not executed | Retry.StaleCounterAfterLimit | Retry.FixedCounterFresh |
| src/cryptowrapper.py:1097-1098 | BinanceDEX splices `transactions_GET` | `transaction_GET(_hash="h")` requests `/api/v1/tx/` | `transaction_GET` gets the hash appended; `transactions_GET` keeps its path | high, not executed | Paths.DexTransactionAsWritten | Paths.DexSplicingMatchesTable |
| src/cryptowrapper.py:1565-1567 | `"/api/" + path + nonce + data` where `data` is the dict body | an authenticated `positions_audit_POST` (body `{"id": ...}`), or `foreign_exchange_rate_POST(ccy1="USD", ccy2="EUR")` | the body is serialised before it is signed | high, not executed | BitfinexRequest.BodySplitSigningFails | BitfinexRequest.FixedSignsEveryCall |
| src/cryptowrapper.py:1567 | `"/api/" + path` where `path` already starts with `/` | any signed `/v2/auth/...` path gives `/api//v2/auth/...` | `/api/v2/auth/...`, as Bitfinex's v2 authentication documents | medium, not executed | BitfinexRequest.SignedMessageDoubled | BitfinexRequest.FixedSignsEveryCall |
