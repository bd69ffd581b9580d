/** Request signing: what each wrapper's `_set_auth_headers` / `_set_auth`
    adds to a prepared request. The keyed digest (HMAC over SHA-256 or SHA-384,
    hex encoded) is a parameter `mac(key, message)`; the clock is the parameter
    `now` (seconds, as `time()` returns them) and Deribit's `uuid4().hex` the
    parameter `nonce`. Each signer is paired with the check the exchange's
    server performs on what it receives; for Bitfinex it is the corrected
    signer that passes it. */
module Auth {
  import opened Wrappers
  import opened Strings
  import opened OrderedDict
  import opened Json
  import opened Registry

  /** The parts of a `PreparedRequest` the signers read and write: method, URL
      path and query as `urlparse` splits them, body, headers. */
  datatype Prepared = Prepared(verb: string, path: string, query: string, body: Json, headers: Dict<string>)

  /** A keyed digest, `hmac.new(key, msg, digest).hexdigest()`. */
  type Mac = (string, string) -> string

  /** `self.api_secret.encode(...)` when no secret was configured. */
  const NoSecret: Error := AttributeError("'NoneType' object has no attribute 'encode'")

  /** `"?".join([path, query]) if query else path`. */
  function SignedPath(path: string, query: string): string {
    if query == "" then path else path + "?" + query
  }

  /** The server's reading of a signed path: everything up to the first `?` is
      the path, the rest the query. */
  function SplitSignedPath(s: string): (string, string) {
    match IndexOf(s, '?')
    case None => (s, "")
    case Some(i) => (s[..i], s[i + 1..])
  }

  /** The signed path is `path?query`, and it determines both halves (a URL
      path never holds a `?`). */
  lemma SignedPathRoundTrip(path: string, query: string)
    requires '?' !in path
    ensures StartsWith(SignedPath(path, query), path)
    ensures SplitSignedPath(SignedPath(path, query)) == (path, query)
  {
    var s := SignedPath(path, query);
    assert s[..|path|] == path;
    if query != "" {
      assert s[|path|] == '?';
      IndexOfIs(s, '?', |path|);
      assert s[|path| + 1..] == query;
    }
  }

  function TypeName(j: Json): string {
    match j
    case JNull => "NoneType"
    case JBool(_) => "bool"
    case JNum(_) => "int"
    case JStr(_) => "str"
    case JArr(_) => "list"
    case JObj(_) => "dict"
  }

  /** `data = prepped.body or ""`, about to be concatenated to a `str`: an empty
      body reads as `""`, a text body as itself, and any other value raises. */
  function BodyText(body: Json): (r: Result<string>)
    ensures !Truthy(body) ==> r == Ok("")
    ensures Truthy(body) && body.JStr? ==> r == Ok(body.s)
    ensures r.Err? <==> Truthy(body) && !body.JStr?
    ensures r.Err? ==> r.error.TypeError?
  {
    if !Truthy(body) then Ok("")
    else match body
      case JStr(s) => Ok(s)
      case _ => Err(TypeError("can only concatenate str (not \"" + TypeName(body) + "\") to str"))
  }

  /** Every header outside `ks` reads as before. */
  ghost predicate OthersKept(before: Dict<string>, after: Dict<string>, ks: set<string>) {
    forall k :: k !in ks ==> Get(after, k) == Get(before, k)
  }

  /** The request is the same apart from its headers. */
  predicate OnlyHeaders(p: Prepared, q: Prepared) {
    q.verb == p.verb && q.path == p.path && q.query == p.query && q.body == p.body
  }

  // ------------------------------------------------------------------ BitMEX

  /** BitMEX's signed message: verb, signed path, expiry, body, concatenated. */
  function BitmexMessage(verb: string, path: string, expires: string, data: string): string {
    verb + path + expires + data
  }

  /** BitMEX `_set_auth_headers`: the expiry is `int(time() + 5)`. */
  function BitmexAuth(p: Prepared, apiKey: string, secret: Arg, now: real, mac: Mac): (r: Result<Prepared>)
    ensures BodyText(p.body).Err? ==> r == Err(BodyText(p.body).error)
    ensures r.Err? <==> BodyText(p.body).Err? || secret.None?
    ensures r.Ok? ==> OnlyHeaders(p, r.value)
    ensures r.Ok? ==> OthersKept(p.headers, r.value.headers, {"api-key", "api-expires", "api-signature"})
    ensures r.Ok? ==> Get(r.value.headers, "api-key") == Some(apiKey)
    ensures r.Ok? ==> Get(r.value.headers, "api-expires") == Some(IntToString(Trunc(now + 5.0)))
  {
    var expires := IntToString(Trunc(now + 5.0));
    match BodyText(p.body)
    case Err(e) => Err(e)
    case Ok(data) =>
      var message := BitmexMessage(p.verb, SignedPath(p.path, p.query), expires, data);
      if secret.None? then Err(NoSecret)
      else
        var h1 := Set(p.headers, "api-key", apiKey);
        var h2 := Set(h1, "api-expires", expires);
        var h3 := Set(h2, "api-signature", mac(secret.value, message));
        SetThree(p.headers, "api-key", apiKey, "api-expires", expires, "api-signature", mac(secret.value, message));
        Ok(p.(headers := h3))
  }

  /** Three successive `headers.update({k: v})` calls. */
  lemma SetThree(d: Dict<string>, k1: string, v1: string, k2: string, v2: string, k3: string, v3: string)
    requires k1 != k2 && k1 != k3 && k2 != k3
    ensures var h := Set(Set(Set(d, k1, v1), k2, v2), k3, v3);
      Get(h, k1) == Some(v1) && Get(h, k2) == Some(v2) && Get(h, k3) == Some(v3) &&
      OthersKept(d, h, {k1, k2, k3})
  {
    var h1 := Set(d, k1, v1);
    var h2 := Set(h1, k2, v2);
    forall k ensures Get(Set(h2, k3, v3), k) == if k == k3 then Some(v3) else if k == k2 then Some(v2) else if k == k1 then Some(v1) else Get(d, k) {
      GetSet(h2, k3, v3, k);
      GetSet(h1, k2, v2, k);
      GetSet(d, k1, v1, k);
    }
  }

  /** What BitMEX checks on arrival at time `at`: the expiry header is an
      integer still in the future, and the signature header is the digest of
      the message rebuilt from the request and that expiry header. */
  predicate BitmexAccepts(secret: string, mac: Mac, q: Prepared, at: real) {
    var e := Get(q.headers, "api-expires");
    var sig := Get(q.headers, "api-signature");
    e.Some? && sig.Some? && BodyText(q.body).Ok? &&
    ParseInt(e.value).Some? && at < ParseInt(e.value).value as real &&
    sig.value == mac(secret, BitmexMessage(q.verb, SignedPath(q.path, q.query), e.value, BodyText(q.body).value))
  }

  /** A BitMEX-signed request is accepted for (at least) the next four seconds. */
  lemma BitmexSignedAccepted(p: Prepared, apiKey: string, secret: Arg, now: real, mac: Mac, at: real)
    requires BitmexAuth(p, apiKey, secret, now, mac).Ok?
    requires at <= now + 4.0
    ensures BitmexAccepts(secret.value, mac, BitmexAuth(p, apiKey, secret, now, mac).value, at)
  {
    var n := Trunc(now + 5.0);
    IntToStringRoundTrip(n);
    var q := BitmexAuth(p, apiKey, secret, now, mac).value;
    var data := BodyText(p.body).value;
    SetThree(p.headers, "api-key", apiKey, "api-expires", IntToString(n),
      "api-signature", mac(secret.value, BitmexMessage(p.verb, SignedPath(p.path, p.query), IntToString(n), data)));
  }

  /** ... and refused once five seconds have passed. */
  lemma BitmexSignedExpires(p: Prepared, apiKey: string, secret: Arg, now: real, mac: Mac, at: real)
    requires BitmexAuth(p, apiKey, secret, now, mac).Ok?
    requires 0.0 <= now && now + 5.0 <= at
    ensures !BitmexAccepts(secret.value, mac, BitmexAuth(p, apiKey, secret, now, mac).value, at)
  {
    IntToStringRoundTrip(Trunc(now + 5.0));
  }

  // ------------------------------------------------------------------ Binance

  /** The routes Binance's `_set_auth` signs: the v3 REST and WAPI routes,
      except the public price, book-ticker and status routes. */
  predicate ShouldSign(api: string) {
    (Contains(api, "/api/v3") || Contains(api, "/wapi/v3"))
    && !Contains(api, "/avgPrice")
    && !Contains(api, "/bookTicker")
    && !Contains(api, "/price")
    && !Contains(api, "/systemStatus.html")
  }

  /** `prepare_url(url, params={k: v})`: the encoded pair goes after the
      existing query, joined by `&`. */
  function AddParam(query: string, pair: string): string {
    if query == "" then pair else query + "&" + pair
  }

  /** Binance `_set_auth`: the digest covers the query alone and, on a signed
      route, is appended as the last query parameter. */
  function BinanceAuth(p: Prepared, apiKey: string, secret: Arg, mac: Mac): (r: Result<Prepared>)
    ensures r.Err? <==> secret.None?
    ensures r.Ok? ==> r.value.verb == p.verb && r.value.path == p.path && r.value.body == p.body
    ensures r.Ok? ==> Get(r.value.headers, "X-MBX-APIKEY") == Some(apiKey)
    ensures r.Ok? ==> OthersKept(p.headers, r.value.headers, {"X-MBX-APIKEY"})
    ensures r.Ok? ==> (r.value.query == p.query <==> !ShouldSign(p.path))
    ensures r.Ok? && ShouldSign(p.path) ==> r.value.query == AddParam(p.query, "signature=" + mac(secret.value, p.query))
  {
    if secret.None? then Err(NoSecret)
    else
      var signature := mac(secret.value, p.query);
      var h := Set(p.headers, "X-MBX-APIKEY", apiKey);
      forall k ensures Get(h, k) == if k == "X-MBX-APIKEY" then Some(apiKey) else Get(p.headers, k) {
        GetSet(p.headers, "X-MBX-APIKEY", apiKey, k);
      }
      var q := if ShouldSign(p.path) then AddParam(p.query, "signature=" + signature) else p.query;
      Ok(p.(query := q, headers := h))
  }

  /** The server's reading of a signed query: the last `&`-separated pair must
      be `signature=<sig>`; the pairs before it are what was signed. */
  function StripSignature(query: string): Option<(string, string)> {
    var parts := Split(query, '&');
    var last := parts[|parts| - 1];
    if StartsWith(last, "signature=") then Some((Join(parts[..|parts| - 1], '&'), last[10..]))
    else None
  }

  /** On a signed route the server recovers the original query and the digest
      of exactly that query; a hex digest holds no `&`. */
  lemma BinanceSignatureRecovered(p: Prepared, apiKey: string, secret: Arg, mac: Mac)
    requires secret.Some? && ShouldSign(p.path)
    requires '&' !in mac(secret.value, p.query)
    ensures StripSignature(BinanceAuth(p, apiKey, secret, mac).value.query) == Some((p.query, mac(secret.value, p.query)))
  {
    var sig := mac(secret.value, p.query);
    var pair := "signature=" + sig;
    assert '&' !in pair by {
      forall i | 0 <= i < |pair| ensures pair[i] != '&' {
        if i >= 10 { assert pair[i] == sig[i - 10]; }
      }
    }
    var q := BinanceAuth(p, apiKey, secret, mac).value.query;
    assert q == AddParam(p.query, pair);
    assert pair[..10] == "signature=" && pair[10..] == sig;
    if p.query == "" {
      assert Split(pair, '&') == [pair];
    } else {
      SplitAppend(p.query, '&', pair);
      JoinSplit(p.query, '&');
      var parts := Split(q, '&');
      assert parts[..|parts| - 1] == Split(p.query, '&');
    }
  }

  /** A route holding none of `g`, `b`, `c`, `y` avoids all four exclusions. */
  lemma NoExclusion(api: string)
    requires 'g' !in api && 'b' !in api && 'c' !in api && 'y' !in api
    ensures !Contains(api, "/avgPrice") && !Contains(api, "/bookTicker")
    ensures !Contains(api, "/price") && !Contains(api, "/systemStatus.html")
  {
    NotContains(api, "/avgPrice", 'g');
    NotContains(api, "/bookTicker", 'b');
    NotContains(api, "/price", 'c');
    NotContains(api, "/systemStatus.html", 'y');
  }

  /** Private v3 routes are signed. */
  lemma BinanceOrderSigned(api: string)
    requires api == "/api/v3/order"
    ensures ShouldSign(api)
  {
    ContainsAt(api, "/api/v3", 0);
    assert 'g' !in api && 'b' !in api && 'c' !in api && 'y' !in api;
    NoExclusion(api);
  }

  lemma BinanceWithdrawSigned(api: string)
    requires api == "/wapi/v3/withdraw.html"
    ensures ShouldSign(api)
  {
    ContainsAt(api, "/wapi/v3", 0);
    WithdrawLacks(api);
    NoExclusion(api);
  }

  lemma WithdrawLacks(api: string)
    requires api == "/wapi/v3/withdraw.html"
    ensures 'g' !in api && 'b' !in api && 'c' !in api && 'y' !in api
  {
  }

  /** The public price and status routes are not, even on v3. */
  lemma BinancePriceUnsigned(api: string)
    requires api == "/api/v3/avgPrice"
    ensures !ShouldSign(api)
  {
    ContainsAt(api, "/avgPrice", 7);
  }

  lemma BinanceStatusUnsigned(api: string)
    requires api == "/wapi/v3/systemStatus.html"
    ensures !ShouldSign(api)
  {
    ContainsAt(api, "/systemStatus.html", 8);
  }

  /** v1 routes are never signed. */
  lemma BinanceV1Unsigned(api: string)
    requires api == "/api/v1/depth"
    ensures !ShouldSign(api)
  {
    NotContains(api, "/api/v3", '3');
    NotContains(api, "/wapi/v3", 'w');
  }

  // ------------------------------------------------------------------ Bitfinex

  /** `prepped.body = body if body else prepped.body` in Bitfinex's `_request`. */
  function AttachBody(p: Prepared, body: Json): (q: Prepared)
    ensures Truthy(body) ==> q.body == body
    ensures !Truthy(body) ==> q == p
    ensures q.(body := p.body) == p
  {
    if Truthy(body) then p.(body := body) else p
  }

  /** Bitfinex's signed message as written: `"/api/" + path + nonce + data`. */
  function BitfinexMessage(path: string, nonce: string, data: string): string {
    "/api/" + path + nonce + data
  }

  /** Bitfinex `_set_auth_headers` as written: the nonce is `int(time() + 5000)`. */
  function BitfinexAuth(p: Prepared, apiKey: string, secret: Arg, now: real, mac: Mac): (r: Result<Prepared>)
    ensures BodyText(p.body).Err? ==> r == Err(BodyText(p.body).error)
    ensures r.Err? <==> BodyText(p.body).Err? || secret.None?
    ensures r.Ok? ==> OnlyHeaders(p, r.value)
    ensures r.Ok? ==> OthersKept(p.headers, r.value.headers, {"bfx-apikey", "bfx-nonce", "bfx-signature"})
    ensures r.Ok? ==> Get(r.value.headers, "bfx-apikey") == Some(apiKey)
    ensures r.Ok? ==> Get(r.value.headers, "bfx-nonce") == Some(IntToString(Trunc(now + 5000.0)))
    ensures r.Ok? ==> (Get(r.value.headers, "bfx-signature") ==
      Some(mac(secret.value, BitfinexMessage(SignedPath(p.path, p.query), IntToString(Trunc(now + 5000.0)), BodyText(p.body).value))))
  {
    var nonce := IntToString(Trunc(now + 5000.0));
    match BodyText(p.body)
    case Err(e) => Err(e)
    case Ok(data) =>
      var message := BitfinexMessage(SignedPath(p.path, p.query), nonce, data);
      if secret.None? then Err(NoSecret)
      else
        SetThree(p.headers, "bfx-apikey", apiKey, "bfx-nonce", nonce, "bfx-signature", mac(secret.value, message));
        Ok(p.(headers := Set(Set(Set(p.headers, "bfx-apikey", apiKey), "bfx-nonce", nonce), "bfx-signature", mac(secret.value, message))))
  }

  /** As written, every authenticated call that carries a dict body (the
      keyword arguments of the body-split operations, the `id`/`keys`/
      `settings` bodies) raises while building the message. */
  lemma BitfinexDictBodyFails(p: Prepared, apiKey: string, secret: Arg, now: real, mac: Mac, body: Dict<Json>)
    requires body != []
    ensures BitfinexAuth(AttachBody(p, JObj(body)), apiKey, secret, now, mac).Err?
    ensures BitfinexAuth(AttachBody(p, JObj(body)), apiKey, secret, now, mac).error.TypeError?
  {
  }

  /** As written, the path `urlparse` yields already starts with `/`, so the
      message starts with `/api//v2/`. */
  lemma BitfinexDoubleSlash(rest: string, nonce: string, data: string)
    ensures StartsWith(BitfinexMessage("/v2/" + rest, nonce, data), "/api//v2/")
  {
    var m := BitfinexMessage("/v2/" + rest, nonce, data);
    assert m == "/api//v2/" + (rest + nonce + data);
    assert m[..9] == "/api//v2/";
  }

  /** The layout Bitfinex's v2 authentication documents: `/api/` followed by
      the path without its leading slash, the nonce and the JSON body. */
  function BitfinexMessageFixed(path: string, nonce: string, data: string): string {
    "/api" + path + nonce + data
  }

  /** The signer as evidently intended: the body is serialised (`encode` is
      `json.dumps`) rather than concatenated as a dict, and the path is joined
      without doubling its slash. */
  function BitfinexAuthFixed(p: Prepared, apiKey: string, secret: Arg, now: real, mac: Mac, encode: Json -> string): (r: Result<Prepared>)
    ensures r.Err? <==> secret.None?
    ensures r.Ok? ==> OnlyHeaders(p, r.value)
    ensures r.Ok? ==> OthersKept(p.headers, r.value.headers, {"bfx-apikey", "bfx-nonce", "bfx-signature"})
    ensures r.Ok? ==> Get(r.value.headers, "bfx-apikey") == Some(apiKey)
    ensures r.Ok? ==> Get(r.value.headers, "bfx-nonce") == Some(IntToString(Trunc(now + 5000.0)))
    ensures r.Ok? ==> (Get(r.value.headers, "bfx-signature") ==
      Some(mac(secret.value, BitfinexMessageFixed(SignedPath(p.path, p.query), IntToString(Trunc(now + 5000.0)),
        if Truthy(p.body) then encode(p.body) else ""))))
  {
    var nonce := IntToString(Trunc(now + 5000.0));
    var data := if Truthy(p.body) then encode(p.body) else "";
    var message := BitfinexMessageFixed(SignedPath(p.path, p.query), nonce, data);
    if secret.None? then Err(NoSecret)
    else
      SetThree(p.headers, "bfx-apikey", apiKey, "bfx-nonce", nonce, "bfx-signature", mac(secret.value, message));
      Ok(p.(headers := Set(Set(Set(p.headers, "bfx-apikey", apiKey), "bfx-nonce", nonce), "bfx-signature", mac(secret.value, message))))
  }

  /** What Bitfinex checks: the key header names the client's key, and the
      signature header is the digest of `/api/`, the signed path without its
      leading slash, the request's own `bfx-nonce` and the JSON body. */
  predicate BitfinexAccepts(secret: string, mac: Mac, encode: Json -> string, apiKey: string, q: Prepared) {
    var sp := SignedPath(q.path, q.query);
    var n := Get(q.headers, "bfx-nonce");
    |sp| > 0 && sp[0] == '/' && n.Some? && Get(q.headers, "bfx-apikey") == Some(apiKey) &&
    Get(q.headers, "bfx-signature") ==
      Some(mac(secret, "/api/" + sp[1..] + n.value + if Truthy(q.body) then encode(q.body) else ""))
  }

  /** A request signed by the corrected signer passes that check; `urlparse`
      always yields a path starting with `/`. */
  lemma BitfinexFixedAccepted(p: Prepared, apiKey: string, secret: Arg, now: real, mac: Mac, encode: Json -> string)
    requires secret.Some? && |p.path| > 0 && p.path[0] == '/'
    ensures BitfinexAccepts(secret.value, mac, encode, apiKey, BitfinexAuthFixed(p, apiKey, secret, now, mac, encode).value)
  {
    var sp := SignedPath(p.path, p.query);
    assert sp[0] == '/';
    assert sp == "/" + sp[1..];
    var nonce := IntToString(Trunc(now + 5000.0));
    var data := if Truthy(p.body) then encode(p.body) else "";
    assert BitfinexMessageFixed(sp, nonce, data) == "/api/" + sp[1..] + nonce + data;
  }

  /** The corrected message is `/api/` + the path without its leading slash. */
  lemma BitfinexFixedLayout(rest: string, nonce: string, data: string)
    ensures BitfinexMessageFixed("/" + rest, nonce, data) == "/api/" + rest + nonce + data
    ensures BitfinexMessage("/" + rest, nonce, data) == "/api//" + rest + nonce + data
  {
  }

  // ------------------------------------------------------------------ Deribit

  /** Deribit's signed message: five newline-terminated fields. */
  function DeribitMessage(ts: int, nonce: string, verb: string, path: string, data: string): string {
    IntToString(ts) + "\n" + nonce + "\n" + verb + "\n" + path + "\n" + data + "\n"
  }

  /** The message splits back into its fields when none of them holds a newline. */
  lemma DeribitMessageFields(ts: int, nonce: string, verb: string, path: string, data: string)
    requires '\n' !in nonce && '\n' !in verb && '\n' !in path && '\n' !in data
    ensures Split(DeribitMessage(ts, nonce, verb, path, data), '\n') == [IntToString(ts), nonce, verb, path, data, ""]
  {
    var parts := [IntToString(ts), nonce, verb, path, data, ""];
    IntToStringHasNo(ts, '\n');
    assert Join(parts, '\n') == DeribitMessage(ts, nonce, verb, path, data) by {
      assert Join(parts[5..], '\n') == "";
      assert Join(parts[4..], '\n') == data + "\n" + "";
      assert Join(parts[3..], '\n') == path + "\n" + (data + "\n" + "");
      assert Join(parts[2..], '\n') == verb + "\n" + (path + "\n" + (data + "\n" + ""));
      assert Join(parts[1..], '\n') == nonce + "\n" + (verb + "\n" + (path + "\n" + (data + "\n" + "")));
    }
    SplitJoin(parts, '\n');
  }

  const DeribitScheme: string := "deri-hmac-sha256 "

  /** `f"deri-hmac-sha256 id={key},ts={ts},nonce={nonce},sig={sig}"`. */
  function DeribitHeader(key: string, ts: int, nonce: string, sig: string): string {
    DeribitScheme + "id=" + key + ",ts=" + IntToString(ts) + ",nonce=" + nonce + ",sig=" + sig
  }

  /** The value after `prefix` (such as `id=`) in one field of the header. */
  function Field(part: string, prefix: string): Option<string> {
    if StartsWith(part, prefix) then Some(part[|prefix|..]) else None
  }

  lemma FieldOf(prefix: string, v: string)
    ensures Field(prefix + v, prefix) == Some(v)
  {
    assert (prefix + v)[..|prefix|] == prefix;
  }

  /** The server's reading of the `Authorization` header: key, timestamp, nonce, signature. */
  function ParseDeribitHeader(h: string): Option<(string, int, string, string)> {
    if !StartsWith(h, DeribitScheme) then None
    else
      var parts := Split(h[|DeribitScheme|..], ',');
      if |parts| != 4 then None
      else
        var id := Field(parts[0], "id=");
        var ts := Field(parts[1], "ts=");
        var nonce := Field(parts[2], "nonce=");
        var sig := Field(parts[3], "sig=");
        if id.None? || ts.None? || nonce.None? || sig.None? || ParseInt(ts.value).None? then None
        else Some((id.value, ParseInt(ts.value).value, nonce.value, sig.value))
  }

  /** The header reads back as the four values written into it. */
  lemma DeribitHeaderRoundTrip(key: string, ts: int, nonce: string, sig: string)
    requires ',' !in key && ',' !in nonce && ',' !in sig
    ensures ParseDeribitHeader(DeribitHeader(key, ts, nonce, sig)) == Some((key, ts, nonce, sig))
  {
    var t := IntToString(ts);
    var p0, p1, p2, p3 := "id=" + key, "ts=" + t, "nonce=" + nonce, "sig=" + sig;
    HeaderFields(key, ts, nonce, sig);
    IntToStringRoundTrip(ts);
    FieldOf("id=", key);
    FieldOf("ts=", t);
    FieldOf("nonce=", nonce);
    FieldOf("sig=", sig);
  }

  /** The header is the scheme followed by the four fields joined by commas. */
  lemma HeaderFields(key: string, ts: int, nonce: string, sig: string)
    requires ',' !in key && ',' !in nonce && ',' !in sig
    ensures var h := DeribitHeader(key, ts, nonce, sig);
      StartsWith(h, DeribitScheme) &&
      Split(h[|DeribitScheme|..], ',') == ["id=" + key, "ts=" + IntToString(ts), "nonce=" + nonce, "sig=" + sig]
  {
    var parts := ["id=" + key, "ts=" + IntToString(ts), "nonce=" + nonce, "sig=" + sig];
    FieldsCommaFree(key, ts, nonce, sig);
    SplitJoin(parts, ',');
    HeaderJoin(key, ts, nonce, sig);
  }

  lemma FieldsCommaFree(key: string, ts: int, nonce: string, sig: string)
    requires ',' !in key && ',' !in nonce && ',' !in sig
    ensures var parts := ["id=" + key, "ts=" + IntToString(ts), "nonce=" + nonce, "sig=" + sig];
      forall k :: 0 <= k < |parts| ==> ',' !in parts[k]
  {
    IntToStringHasNo(ts, ',');
    NoCharIn("id=" + key, "id=", key, ',');
    NoCharIn("ts=" + IntToString(ts), "ts=", IntToString(ts), ',');
    NoCharIn("nonce=" + nonce, "nonce=", nonce, ',');
    NoCharIn("sig=" + sig, "sig=", sig, ',');
  }

  lemma HeaderJoin(key: string, ts: int, nonce: string, sig: string)
    ensures var h := DeribitHeader(key, ts, nonce, sig);
      StartsWith(h, DeribitScheme) &&
      h[|DeribitScheme|..] == Join(["id=" + key, "ts=" + IntToString(ts), "nonce=" + nonce, "sig=" + sig], ',')
  {
    var t := IntToString(ts);
    var p0, p1, p2, p3 := "id=" + key, "ts=" + t, "nonce=" + nonce, "sig=" + sig;
    JoinFour(p0, p1, p2, p3, ',');
    assert ",ts=" == [','] + "ts=";
    assert ",nonce=" == [','] + "nonce=";
    assert ",sig=" == [','] + "sig=";
    Regroup(DeribitScheme, "id=", key, "ts=", t, "nonce=", nonce, "sig=", sig, ',');
    var body := Join([p0, p1, p2, p3], ',');
    var h := DeribitScheme + body;
    assert h[..|DeribitScheme|] == DeribitScheme && h[|DeribitScheme|..] == body;
  }

  /** Moving each separator from the front of its label to the end of the previous field. */
  lemma Regroup(s: string, l0: string, a: string, l1: string, b: string, l2: string, c: string, l3: string, d: string, sep: char)
    ensures s + l0 + a + ([sep] + l1) + b + ([sep] + l2) + c + ([sep] + l3) + d
      == s + ((l0 + a) + [sep] + (l1 + b) + [sep] + (l2 + c) + [sep] + (l3 + d))
  {
  }

  lemma JoinFour(a: string, b: string, c: string, d: string, sep: char)
    ensures Join([a, b, c, d], sep) == a + [sep] + b + [sep] + c + [sep] + d
  {
    var parts := [a, b, c, d];
    assert parts[1..][1..][1..] == [d];
    assert Join(parts[1..][1..], sep) == c + [sep] + d;
    assert parts[1..][1..] == [c, d];
    assert Join(parts[1..], sep) == b + [sep] + (c + [sep] + d);
    assert Join(parts, sep) == a + [sep] + (b + [sep] + (c + [sep] + d));
  }

  lemma NoCharIn(s: string, a: string, b: string, c: char)
    requires s == a + b && c !in a && c !in b
    ensures c !in s
  {
    forall i | 0 <= i < |s| ensures s[i] != c {
      if i < |a| { assert s[i] == a[i]; } else { assert s[i] == b[i - |a|]; }
    }
  }

  /** `data = prepped.body or ""` as an f-string shows it: an empty body as
      `""`, a text body as itself, any other body as `format` (`str`) prints it. */
  function DeribitData(body: Json, format: Json -> string): string {
    if !Truthy(body) then ""
    else match body
      case JStr(s) => s
      case _ => format(body)
  }

  /** Deribit `_set_auth_headers`: the timestamp is `int(time() * 1000)`; the
      f-string accepts any body, so only a missing secret fails. */
  function DeribitAuth(p: Prepared, apiKey: string, secret: Arg, now: real, nonce: string, mac: Mac,
                       format: Json -> string): (r: Result<Prepared>)
    ensures r.Err? <==> secret.None?
    ensures r.Err? ==> r.error == NoSecret
    ensures r.Ok? ==> OnlyHeaders(p, r.value)
    ensures r.Ok? ==> OthersKept(p.headers, r.value.headers, {"Authorization"})
    ensures r.Ok? ==> Get(r.value.headers, "Authorization") == Some(DeribitHeader(apiKey, Trunc(now * 1000.0), nonce,
      mac(secret.value, DeribitMessage(Trunc(now * 1000.0), nonce, p.verb, SignedPath(p.path, p.query), DeribitData(p.body, format)))))
  {
    var ts := Trunc(now * 1000.0);
    var message := DeribitMessage(ts, nonce, p.verb, SignedPath(p.path, p.query), DeribitData(p.body, format));
    if secret.None? then Err(NoSecret)
    else
      var auth := DeribitHeader(apiKey, ts, nonce, mac(secret.value, message));
      forall k ensures Get(Set(p.headers, "Authorization", auth), k) == if k == "Authorization" then Some(auth) else Get(p.headers, k) {
        GetSet(p.headers, "Authorization", auth, k);
      }
      Ok(p.(headers := Set(p.headers, "Authorization", auth)))
  }

  /** What Deribit checks: the header names the client's key, and its signature
      is the digest of the message rebuilt from the request and the header's
      own timestamp and nonce. */
  predicate DeribitAccepts(secret: string, mac: Mac, format: Json -> string, apiKey: string, q: Prepared) {
    var h := Get(q.headers, "Authorization");
    h.Some? && ParseDeribitHeader(h.value).Some? &&
    var (id, ts, nonce, sig) := ParseDeribitHeader(h.value).value;
    id == apiKey && sig == mac(secret, DeribitMessage(ts, nonce, q.verb, SignedPath(q.path, q.query), DeribitData(q.body, format)))
  }

  /** A Deribit-signed request passes that check (a key, a hex nonce and a hex
      digest hold no comma). */
  lemma DeribitSignedAccepted(p: Prepared, apiKey: string, secret: Arg, now: real, nonce: string, mac: Mac,
                              format: Json -> string)
    requires secret.Some?
    requires ',' !in apiKey && ',' !in nonce
    requires ',' !in mac(secret.value, DeribitMessage(Trunc(now * 1000.0), nonce, p.verb, SignedPath(p.path, p.query), DeribitData(p.body, format)))
    ensures DeribitAccepts(secret.value, mac, format, apiKey, DeribitAuth(p, apiKey, secret, now, nonce, mac, format).value)
  {
    var ts := Trunc(now * 1000.0);
    var sig := mac(secret.value, DeribitMessage(ts, nonce, p.verb, SignedPath(p.path, p.query), DeribitData(p.body, format)));
    DeribitHeaderRoundTrip(apiKey, ts, nonce, sig);
  }

  // ------------------------------------------------------------------ dispatch

  /** The step of each wrapper's `_request` between `prepare_request` and
      `send`: `if self.api_key:` sign. CoinMarketCap, CryptoCompare and
      BinanceDEX sign nothing per request. */
  function Authenticate(ex: Exchange, p: Prepared, apiKey: Arg, secret: Arg, now: real, nonce: string,
                        sha256: Mac, sha384: Mac, format: Json -> string): (r: Result<Prepared>)
    ensures !ArgTruthy(apiKey) ==> r == Ok(p)
    ensures ex in {CoinMarketCap, CryptoCompare, BinanceDEX} ==> r == Ok(p)
    ensures r.Ok? ==> r.value.verb == p.verb && r.value.path == p.path && r.value.body == p.body
  {
    if !ArgTruthy(apiKey) then Ok(p)
    else match ex
      case BitMEX => BitmexAuth(p, apiKey.value, secret, now, sha256)
      case Binance => BinanceAuth(p, apiKey.value, secret, sha256)
      case Bitfinex => BitfinexAuth(p, apiKey.value, secret, now, sha384)
      case Deribit => DeribitAuth(p, apiKey.value, secret, now, nonce, sha256, format)
      case _ => Ok(p)
  }

  /** With a key configured, a signing exchange either signs or fails: the
      request never leaves unsigned. */
  lemma AuthenticateSignsOrFails(ex: Exchange, p: Prepared, apiKey: Arg, secret: Arg, now: real, nonce: string,
                                 sha256: Mac, sha384: Mac, format: Json -> string)
    requires ArgTruthy(apiKey) && ex in {BitMEX, Binance, Bitfinex, Deribit}
    ensures var r := Authenticate(ex, p, apiKey, secret, now, nonce, sha256, sha384, format);
      r.Err? || (ex == BitMEX && Get(r.value.headers, "api-signature").Some?)
        || (ex == Binance && Get(r.value.headers, "X-MBX-APIKEY") == Some(apiKey.value) &&
            (ShouldSign(p.path) ==> r.value.query == AddParam(p.query, "signature=" + sha256(secret.value, p.query))))
        || (ex == Bitfinex && Get(r.value.headers, "bfx-signature").Some?)
        || (ex == Deribit && Get(r.value.headers, "Authorization").Some?)
    ensures secret.None? ==> Authenticate(ex, p, apiKey, secret, now, nonce, sha256, sha384, format).Err?
  {
    var r := Authenticate(ex, p, apiKey, secret, now, nonce, sha256, sha384, format);
    if ex == BitMEX && r.Ok? {
      var data := BodyText(p.body).value;
      var expires := IntToString(Trunc(now + 5.0));
      SetThree(p.headers, "api-key", apiKey.value, "api-expires", expires,
        "api-signature", sha256(secret.value, BitmexMessage(p.verb, SignedPath(p.path, p.query), expires, data)));
    }
  }
}
