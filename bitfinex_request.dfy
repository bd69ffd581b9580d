/** The preparation step of Bitfinex's `_request`: the dispatched endpoint is
    appended to `BASE_URL` (`"https://"`), `urlparse` takes the request path
    from the first `/` after the host, the caller's body replaces the prepared
    one when it is truthy, and a configured key signs. How `params` is encoded
    into the query string is the parameter `query`. */
module BitfinexRequest {
  import opened Wrappers
  import opened Strings
  import opened OrderedDict
  import opened Json
  import opened Registry
  import opened Paths
  import opened Auth

  /** `prepare_request(Request(verb, BASE_URL + endpoint, params=params))`, which
      carries no body, then `prepped.body = body if body else prepped.body`. */
  function Prepare(verb: string, d: Dispatch, headers: Dict<string>, query: Dict<Json> -> string): Prepared {
    AttachBody(Prepared(verb, UrlPath(d.endpoint), query(d.params), JNull, headers), d.body)
  }

  /** `if self.api_key: self._set_auth_headers(prepped)`. */
  function Sign(verb: string, d: Dispatch, headers: Dict<string>, query: Dict<Json> -> string,
                apiKey: Arg, secret: Arg, now: real, mac: Mac): Result<Prepared> {
    var p := Prepare(verb, d, headers, query);
    if ArgTruthy(apiKey) then BitfinexAuth(p, apiKey.value, secret, now, mac) else Ok(p)
  }

  /** The same step with the corrected signer. */
  function SignFixed(verb: string, d: Dispatch, headers: Dict<string>, query: Dict<Json> -> string,
                     apiKey: Arg, secret: Arg, now: real, mac: Mac, encode: Json -> string): Result<Prepared> {
    var p := Prepare(verb, d, headers, query);
    if ArgTruthy(apiKey) then BitfinexAuthFixed(p, apiKey.value, secret, now, mac, encode) else Ok(p)
  }

  /** Bitfinex's own signing step is the Bitfinex arm of the shared dispatch. */
  lemma SignIsAuthenticate(verb: string, d: Dispatch, headers: Dict<string>, query: Dict<Json> -> string,
                           apiKey: Arg, secret: Arg, now: real, nonce: string, sha256: Mac, sha384: Mac,
                           format: Json -> string)
    ensures Sign(verb, d, headers, query, apiKey, secret, now, sha384) ==
      Authenticate(Bitfinex, Prepare(verb, d, headers, query), apiKey, secret, now, nonce, sha256, sha384, format)
  {
  }

  /** As written, a signed call to a body-split operation with keyword
      arguments raises: its keyword arguments become a dict body, which the
      signer concatenates to a string. Without a key the same call reaches
      `send` unsigned. */
  lemma BodySplitSigningFails(name: string, endpoint: string, a: BfxArgs, kwargs: Dict<Json>,
                              verb: string, headers: Dict<string>, query: Dict<Json> -> string,
                              apiKey: Arg, secret: Arg, now: real, mac: Mac)
    requires BodySplitOp(name) && kwargs != []
    ensures BitfinexDispatch(name, endpoint, a, kwargs).Ok?
    ensures var d := BitfinexDispatch(name, endpoint, a, kwargs).value;
      d.body == JObj(kwargs) &&
      (ArgTruthy(apiKey) ==> Sign(verb, d, headers, query, apiKey, secret, now, mac).Err? &&
                             Sign(verb, d, headers, query, apiKey, secret, now, mac).error.TypeError?) &&
      (!ArgTruthy(apiKey) ==> Sign(verb, d, headers, query, apiKey, secret, now, mac).Ok?)
  {
    RuleOfBodySplit(name);
    var d := BitfinexDispatch(name, endpoint, a, kwargs).value;
    if ArgTruthy(apiKey) {
      BitfinexDictBodyFails(Prepared(verb, UrlPath(d.endpoint), query(d.params), JNull, headers), apiKey.value, secret, now, mac, kwargs);
    }
  }

  /** `urlparse` of `"https://" + host + "/" + tail + ...` gives a path
      starting with `/` + tail. */
  lemma EndpointPath(e: string, host: string, tail: string)
    requires '/' !in host && StartsWith(e, host + "/" + tail)
    ensures StartsWith(UrlPath(e), "/" + tail)
  {
    var n := |host|;
    assert e[..n] == host by {
      assert (host + "/" + tail)[..n] == host;
    }
    assert e[n] == '/' by {
      assert (host + "/" + tail)[n] == '/';
    }
    IndexOfIs(e, '/', n);
    var path := e[n..];
    assert path[..|tail| + 1] == "/" + tail by {
      assert path[..|tail| + 1] == e[..n + |tail| + 1][n..];
      assert (host + "/" + tail)[n..] == "/" + tail;
    }
  }

  /** The path of a prepared request whose endpoint extends `host/v2/rest`
      starts with `/v2/` + rest. */
  lemma RequestPath(d: Dispatch, host: string, rest: string,
                    verb: string, headers: Dict<string>, query: Dict<Json> -> string)
    requires '/' !in host && StartsWith(d.endpoint, host + "/v2/" + rest)
    ensures StartsWith(Prepare(verb, d, headers, query).path, "/v2/" + rest)
  {
    assert host + "/v2/" + rest == host + "/" + ("v2/" + rest);
    EndpointPath(d.endpoint, host, "v2/" + rest);
  }

  /** Both message layouts begin with their `/api` text followed by the path. */
  lemma MessagePrefix(path: string, query: string, nonce: string, data: string, pre: string)
    requires StartsWith(path, pre)
    ensures StartsWith(BitfinexMessage(SignedPath(path, query), nonce, data), "/api/" + pre)
    ensures StartsWith(BitfinexMessageFixed(SignedPath(path, query), nonce, data), "/api" + pre)
  {
    var sp := SignedPath(path, query);
    assert sp[..|path|] == path;
    assert BitfinexMessage(sp, nonce, data) == "/api/" + sp + nonce + data;
    assert BitfinexMessageFixed(sp, nonce, data) == "/api" + sp + nonce + data;
  }

  /** The as-written signature of any request whose endpoint extends `host/v2/rest`. */
  lemma DispatchedMessageDoubled(d: Dispatch, host: string, rest: string,
                                 verb: string, headers: Dict<string>, query: Dict<Json> -> string,
                                 apiKey: Arg, secret: Arg, now: real, mac: Mac)
    requires '/' !in host && StartsWith(d.endpoint, host + "/v2/" + rest)
    ensures var p := Prepare(verb, d, headers, query);
      var r := Sign(verb, d, headers, query, apiKey, secret, now, mac);
      ArgTruthy(apiKey) && r.Ok? ==>
        var m := BitfinexMessage(SignedPath(p.path, p.query), IntToString(Trunc(now + 5000.0)), BodyText(p.body).value);
        Get(r.value.headers, "bfx-signature") == Some(mac(secret.value, m)) && StartsWith(m, "/api/" + ("/v2/" + rest))
  {
    var p := Prepare(verb, d, headers, query);
    if ArgTruthy(apiKey) && Sign(verb, d, headers, query, apiKey, secret, now, mac).Ok? {
      RequestPath(d, host, rest, verb, headers, query);
      MessagePrefix(p.path, p.query, IntToString(Trunc(now + 5000.0)), BodyText(p.body).value, "/v2/" + rest);
    }
  }

  /** The corrected signature of any request whose endpoint extends `host/v2/rest`. */
  lemma DispatchedMessageFixed(d: Dispatch, host: string, rest: string,
                               verb: string, headers: Dict<string>, query: Dict<Json> -> string,
                               apiKey: Arg, secret: Arg, now: real, mac: Mac, encode: Json -> string)
    requires '/' !in host && StartsWith(d.endpoint, host + "/v2/" + rest)
    requires ArgTruthy(apiKey) && secret.Some?
    ensures var p := Prepare(verb, d, headers, query);
      var r := SignFixed(verb, d, headers, query, apiKey, secret, now, mac, encode);
      r.Ok? &&
      var m := BitfinexMessageFixed(SignedPath(p.path, p.query), IntToString(Trunc(now + 5000.0)),
                                    if Truthy(p.body) then encode(p.body) else "");
      Get(r.value.headers, "bfx-signature") == Some(mac(secret.value, m)) && StartsWith(m, "/api" + ("/v2/" + rest))
  {
    var p := Prepare(verb, d, headers, query);
    RequestPath(d, host, rest, verb, headers, query);
    MessagePrefix(p.path, p.query, IntToString(Trunc(now + 5000.0)), if Truthy(p.body) then encode(p.body) else "", "/v2/" + rest);
  }

  /** Every call the corrected chain signs passes Bitfinex's own check. */
  lemma FixedRequestAccepted(d: Dispatch, host: string, rest: string,
                             verb: string, headers: Dict<string>, query: Dict<Json> -> string,
                             apiKey: Arg, secret: Arg, now: real, mac: Mac, encode: Json -> string)
    requires '/' !in host && StartsWith(d.endpoint, host + "/v2/" + rest)
    requires ArgTruthy(apiKey) && secret.Some?
    ensures SignFixed(verb, d, headers, query, apiKey, secret, now, mac, encode).Ok?
    ensures BitfinexAccepts(secret.value, mac, encode, apiKey.value,
                            SignFixed(verb, d, headers, query, apiKey, secret, now, mac, encode).value)
  {
    var p := Prepare(verb, d, headers, query);
    RequestPath(d, host, rest, verb, headers, query);
    assert p.path[0] == ("/v2/" + rest)[0];
    BitfinexFixedAccepted(p, apiKey.value, secret, now, mac, encode);
  }

  /** A text that starts with `head + (mid + rest)` starts with `whole + rest`
      and with `whole`, where `whole` is `head + mid`. */
  lemma Regrouped(m: string, head: string, mid: string, whole: string, rest: string)
    requires whole == head + mid && StartsWith(m, head + (mid + rest))
    ensures StartsWith(m, whole + rest) && StartsWith(m, whole)
  {
    assert head + (mid + rest) == whole + rest;
    assert (whole + rest)[..|whole|] == whole;
  }

  /** A text that starts with `head + rest` starts with `head`. */
  lemma Shortened(m: string, head: string, rest: string)
    requires StartsWith(m, head + rest)
    ensures StartsWith(m, head)
  {
    assert (head + rest)[..|head|] == head;
  }

  /** As written, every signed Bitfinex request signs a message that starts
      with `/api//v2/`: the path `urlparse` yields keeps its leading slash. */
  lemma SignedMessageDoubled(name: string, host: string, rest: string, a: BfxArgs, kwargs: Dict<Json>,
                             verb: string, headers: Dict<string>, query: Dict<Json> -> string,
                             apiKey: Arg, secret: Arg, now: real, mac: Mac)
    requires '/' !in host
    requires BitfinexDispatch(name, host + "/v2/" + rest, a, kwargs).Ok?
    ensures var d := BitfinexDispatch(name, host + "/v2/" + rest, a, kwargs).value;
      var p := Prepare(verb, d, headers, query);
      var r := Sign(verb, d, headers, query, apiKey, secret, now, mac);
      ArgTruthy(apiKey) && r.Ok? ==>
        var m := BitfinexMessage(SignedPath(p.path, p.query), IntToString(Trunc(now + 5000.0)), BodyText(p.body).value);
        Get(r.value.headers, "bfx-signature") == Some(mac(secret.value, m)) && StartsWith(m, "/api//v2/" + rest)
  {
    BitfinexDispatchFails(name, host + "/v2/" + rest, a, kwargs);
    var d := BitfinexDispatch(name, host + "/v2/" + rest, a, kwargs).value;
    DispatchedMessageDoubled(d, host, rest, verb, headers, query, apiKey, secret, now, mac);
    var p := Prepare(verb, d, headers, query);
    if ArgTruthy(apiKey) && Sign(verb, d, headers, query, apiKey, secret, now, mac).Ok? {
      var m := BitfinexMessage(SignedPath(p.path, p.query), IntToString(Trunc(now + 5000.0)), BodyText(p.body).value);
      Regrouped(m, "/api/", "/v2/", "/api//v2/", rest);
    }
  }

  /** With the corrected signer, a configured key and secret always sign, a
      dict body included, and the message starts with `/api/v2/`. */
  lemma FixedSignsEveryCall(name: string, host: string, rest: string, a: BfxArgs, kwargs: Dict<Json>,
                            verb: string, headers: Dict<string>, query: Dict<Json> -> string,
                            apiKey: Arg, secret: Arg, now: real, mac: Mac, encode: Json -> string)
    requires '/' !in host
    requires BitfinexDispatch(name, host + "/v2/" + rest, a, kwargs).Ok?
    requires ArgTruthy(apiKey) && secret.Some?
    ensures var d := BitfinexDispatch(name, host + "/v2/" + rest, a, kwargs).value;
      var p := Prepare(verb, d, headers, query);
      var r := SignFixed(verb, d, headers, query, apiKey, secret, now, mac, encode);
      r.Ok? &&
      var m := BitfinexMessageFixed(SignedPath(p.path, p.query), IntToString(Trunc(now + 5000.0)),
                                    if Truthy(p.body) then encode(p.body) else "");
      Get(r.value.headers, "bfx-signature") == Some(mac(secret.value, m)) && StartsWith(m, "/api/v2/" + rest)
  {
    BitfinexDispatchFails(name, host + "/v2/" + rest, a, kwargs);
    var d := BitfinexDispatch(name, host + "/v2/" + rest, a, kwargs).value;
    DispatchedMessageFixed(d, host, rest, verb, headers, query, apiKey, secret, now, mac, encode);
    var p := Prepare(verb, d, headers, query);
    var m := BitfinexMessageFixed(SignedPath(p.path, p.query), IntToString(Trunc(now + 5000.0)),
                                  if Truthy(p.body) then encode(p.body) else "");
    Regrouped(m, "/api", "/v2/", "/api/v2/", rest);
  }

  // ------------------------------------------------------------ the table

  /** A Bitfinex table path: the public or the authenticated host, then `/v2/`. */
  predicate BitfinexHosted(path: string) {
    StartsWith(path, BitfinexPublic) || StartsWith(path, BitfinexAuthenticated)
  }

  /** Every path of the Bitfinex table is `host/v2/...` for one of its two hosts. */
  lemma BitfinexTableHosted()
    ensures |BitfinexTable| == 38
    ensures forall i :: 0 <= i < |BitfinexTable| ==> BitfinexHosted(BitfinexTable[i].1)
  {
    var pub := UnderHost(BitfinexPublic, BitfinexPublicPaths);
    var auth := UnderHost(BitfinexAuthenticated, BitfinexAuthenticatedPaths);
    forall i | 0 <= i < |BitfinexTable|
      ensures BitfinexHosted(BitfinexTable[i].1)
    {
      if i < |pub| {
        assert BitfinexTable[i] == pub[i];
        assert (BitfinexPublic + BitfinexPublicPaths[i].1)[..|BitfinexPublic|] == BitfinexPublic;
      } else {
        assert BitfinexTable[i] == auth[i - |pub|];
        var tail := BitfinexAuthenticatedPaths[i - |pub|].1;
        assert (BitfinexAuthenticated + tail)[..|BitfinexAuthenticated|] == BitfinexAuthenticated;
      }
    }
  }

  /** A hosted path is `host/v2/rest` for a host without a slash. */
  lemma HostSplit(path: string) returns (host: string, rest: string)
    requires BitfinexHosted(path)
    ensures '/' !in host && path == host + "/v2/" + rest
  {
    if StartsWith(path, BitfinexPublic) {
      host := "api-pub.bitfinex.com";
    } else {
      host := "api.bitfinex.com";
    }
    assert '/' !in host;
    rest := path[|host| + 4..];
    assert path == path[..|host| + 4] + rest;
  }

  /** As written, every signed call to a row of the table signs a message that
      starts with `/api//v2/`. */
  lemma TableSignedDoubled(i: nat, a: BfxArgs, kwargs: Dict<Json>,
                           verb: string, headers: Dict<string>, query: Dict<Json> -> string,
                           apiKey: Arg, secret: Arg, now: real, mac: Mac)
    requires i < |BitfinexTable|
    requires BitfinexDispatch(BitfinexTable[i].0, BitfinexTable[i].1, a, kwargs).Ok?
    ensures var d := BitfinexDispatch(BitfinexTable[i].0, BitfinexTable[i].1, a, kwargs).value;
      var p := Prepare(verb, d, headers, query);
      var r := Sign(verb, d, headers, query, apiKey, secret, now, mac);
      ArgTruthy(apiKey) && r.Ok? ==>
        var m := BitfinexMessage(SignedPath(p.path, p.query), IntToString(Trunc(now + 5000.0)), BodyText(p.body).value);
        Get(r.value.headers, "bfx-signature") == Some(mac(secret.value, m)) && StartsWith(m, "/api//v2/")
  {
    BitfinexTableHosted();
    var (name, path) := BitfinexTable[i];
    var host, rest := HostSplit(path);
    SignedMessageDoubled(name, host, rest, a, kwargs, verb, headers, query, apiKey, secret, now, mac);
    var d := BitfinexDispatch(name, path, a, kwargs).value;
    var p := Prepare(verb, d, headers, query);
    if ArgTruthy(apiKey) && Sign(verb, d, headers, query, apiKey, secret, now, mac).Ok? {
      var m := BitfinexMessage(SignedPath(p.path, p.query), IntToString(Trunc(now + 5000.0)), BodyText(p.body).value);
      Shortened(m, "/api//v2/", rest);
    }
  }

  /** With the corrected signer, every call to a row of the table made with a
      key and a secret passes Bitfinex's check. */
  lemma TableFixedAccepted(i: nat, a: BfxArgs, kwargs: Dict<Json>,
                           verb: string, headers: Dict<string>, query: Dict<Json> -> string,
                           apiKey: Arg, secret: Arg, now: real, mac: Mac, encode: Json -> string)
    requires i < |BitfinexTable|
    requires BitfinexDispatch(BitfinexTable[i].0, BitfinexTable[i].1, a, kwargs).Ok?
    requires ArgTruthy(apiKey) && secret.Some?
    ensures var d := BitfinexDispatch(BitfinexTable[i].0, BitfinexTable[i].1, a, kwargs).value;
      SignFixed(verb, d, headers, query, apiKey, secret, now, mac, encode).Ok? &&
      BitfinexAccepts(secret.value, mac, encode, apiKey.value,
                      SignFixed(verb, d, headers, query, apiKey, secret, now, mac, encode).value)
  {
    BitfinexTableHosted();
    var (name, path) := BitfinexTable[i];
    var host, rest := HostSplit(path);
    BitfinexDispatchFails(name, path, a, kwargs);
    var d := BitfinexDispatch(name, path, a, kwargs).value;
    FixedRequestAccepted(d, host, rest, verb, headers, query, apiKey, secret, now, mac, encode);
  }
}
