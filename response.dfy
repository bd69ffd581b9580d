/** `_handle_response`: how a received response becomes the value a wrapper
    call returns. The shared handler tags parsed results with `cached`;
    BitMEX adds its rate-limit headers; Bitfinex first wraps the parsed value
    as `{"response": ...}`. Whatever raises inside the `try` leaves the value
    reached so far, replaced by the raw text for the statuses that are never
    retried. */
module Response {
  import opened Wrappers
  import opened OrderedDict
  import opened Json
  import opened Registry

  /** What the handler reads from a `requests` response. `parsed` is
      `json.loads(text)`, `None` where that raises. */
  datatype RawResponse = RawResponse(
    status: int, text: string, fromCache: bool, parsed: Option<Json>, headers: Dict<string>)

  /** Bad request, unauthorised, forbidden, not found, rate limited, server error. */
  const TerminalStatuses: set<int> := {400, 401, 403, 404, 429, 500}

  /** `raise_for_status()` raises for client and server errors. */
  predicate RaisesForStatus(status: int) {
    400 <= status < 600
  }

  /** Where the `try` block ended: with a value, or by raising after `response`
      had been assigned `partial` (`None` before `json.loads` returned). */
  datatype Outcome = Done(value: Json) | Raised(partial: Json)

  /** The `except` branch and the final `return response`. */
  function Finish(r: RawResponse, o: Outcome): Json {
    match o
    case Done(v) => v
    case Raised(partial) => if r.status in TerminalStatuses then JStr(r.text) else partial
  }

  /** The elements `for item in value` visits: list items, dict keys, the
      characters of a string; `None` where the value is not iterable. */
  function Iterate(v: Json): Option<seq<Json>> {
    match v
    case JArr(items) => Some(items)
    case JObj(fields) => Some(KeyStrings(fields))
    case JStr(s) => Some(Chars(s))
    case _ => None
  }

  function KeyStrings(fields: Dict<Json>): (ks: seq<Json>)
    ensures |ks| == |fields|
    ensures forall i :: 0 <= i < |fields| ==> ks[i] == JStr(fields[i].0)
  {
    if fields == [] then [] else [JStr(fields[0].0)] + KeyStrings(fields[1..])
  }

  function Chars(s: string): (cs: seq<Json>)
    ensures |cs| == |s|
    ensures forall i :: 0 <= i < |s| ==> cs[i] == JStr([s[i]])
  {
    if s == [] then [] else [JStr([s[0]])] + Chars(s[1..])
  }

  /** `dict(item, **{"cached": ob})`. */
  function Tag(item: Json, ob: bool): Option<Json> {
    match Copy(item)
    case None => None
    case Some(fields) => Some(JObj(Set(fields, "cached", JBool(ob))))
  }

  /** The list comprehension over `Tag`: it raises as soon as one item does. */
  function TagAll(items: seq<Json>, ob: bool): (r: Option<seq<Json>>)
    ensures r.Some? <==> forall i :: 0 <= i < |items| ==> Tag(items[i], ob).Some?
    ensures r.Some? ==> |r.value| == |items|
    ensures r.Some? ==> forall i :: 0 <= i < |items| ==> r.value[i] == Tag(items[i], ob).value
  {
    if items == [] then Some([])
    else match (Tag(items[0], ob), TagAll(items[1..], ob))
      case (Some(t), Some(ts)) => Some([t] + ts)
      case _ => None
  }

  /** `[dict(item) for item in response]`. */
  function CopyAll(items: seq<Json>): (r: Option<seq<Json>>)
    ensures r.Some? <==> forall i :: 0 <= i < |items| ==> Copy(items[i]).Some?
    ensures r.Some? ==> |r.value| == |items|
    ensures r.Some? ==> forall i :: 0 <= i < |items| ==> r.value[i] == JObj(Copy(items[i]).value)
  {
    if items == [] then Some([])
    else match (Copy(items[0]), CopyAll(items[1..]))
      case (Some(c), Some(cs)) => Some([JObj(c)] + cs)
      case _ => None
  }

  // ------------------------------------------------------------------ shared handler

  /** Tagging a parsed value in synchronous mode. */
  function TagParsed(v: Json, ob: bool): Outcome {
    match v
    case JArr(items) =>
      (match TagAll(items, ob)
       case None => Raised(v)
       case Some(tagged) => Done(JArr(tagged)))
    case JObj(fields) => Done(JObj(Set(fields, "cached", JBool(ob))))
    case _ => Done(v)
  }

  /** The `try` block of the handler CoinMarketCap, CryptoCompare, Binance,
      BinanceDEX and Deribit share. */
  function TryShared(r: RawResponse, asynchronous: bool): Outcome {
    if RaisesForStatus(r.status) then Raised(JNull)
    else match r.parsed
      case None => Raised(JNull)
      case Some(v) => if asynchronous then Done(v) else TagParsed(v, r.fromCache)
  }

  function HandleShared(r: RawResponse, asynchronous: bool): Json {
    Finish(r, TryShared(r, asynchronous))
  }

  // ------------------------------------------------------------------ BitMEX

  /** `{"limit": ..., "remaining": ..., "reset": ...}` from the `x-ratelimit-*`
      headers; `None` where one is missing (the lookup raises `KeyError`). */
  function RateLimitFields(r: RawResponse): Option<Dict<Json>> {
    var limit := Get(r.headers, "x-ratelimit-limit");
    var remaining := Get(r.headers, "x-ratelimit-remaining");
    var reset := Get(r.headers, "x-ratelimit-reset");
    if limit.None? || remaining.None? || reset.None? then None
    else Some([("limit", JStr(limit.value)), ("remaining", JStr(remaining.value)), ("reset", JStr(reset.value))])
  }

  function TryBitmex(r: RawResponse, asynchronous: bool): Outcome {
    if RaisesForStatus(r.status) then Raised(JNull)
    else match r.parsed
      case None => Raised(JNull)
      case Some(v) =>
        match RateLimitFields(r)
        case None => Raised(v)
        case Some(rl) =>
          var ratelimit := RateLimitObject(rl);
          if !asynchronous then
            match v
            case JArr(items) =>
              (match TagAll(items, r.fromCache)
               case None => Raised(v)
               case Some(tagged) => Done(JArr(tagged + [ratelimit])))
            case JObj(fields) => Done(JObj(Set(Set(fields, "cached", JBool(r.fromCache)), "ratelimit", JObj(rl))))
            case _ => Done(v)
          else
            match Iterate(v)
            case None => Raised(v)
            case Some(items) =>
              match CopyAll(items)
              case None => Raised(v)
              case Some(copies) => Done(JArr(copies + [ratelimit]))
  }

  function HandleBitmex(r: RawResponse, asynchronous: bool): Json {
    Finish(r, TryBitmex(r, asynchronous))
  }

  // ------------------------------------------------------------------ Bitfinex

  function TryBitfinex(r: RawResponse, asynchronous: bool): Outcome {
    if RaisesForStatus(r.status) then Raised(JNull)
    else match r.parsed
      case None => Raised(JNull)
      case Some(v) =>
        var wrapped := [("response", v)];
        if asynchronous then Done(JObj(wrapped)) else Done(JObj(Set(wrapped, "cached", JBool(r.fromCache))))
  }

  function HandleBitfinex(r: RawResponse, asynchronous: bool): Json {
    Finish(r, TryBitfinex(r, asynchronous))
  }

  /** The handler each wrapper class defines. */
  function Handle(ex: Exchange, r: RawResponse, asynchronous: bool): Json {
    match ex
    case BitMEX => HandleBitmex(r, asynchronous)
    case Bitfinex => HandleBitfinex(r, asynchronous)
    case _ => HandleShared(r, asynchronous)
  }

  // ------------------------------------------------------------------ properties

  /** The three outcomes every handler shares: a terminal status returns the raw
      text; any other error status, or a body that is not JSON, returns `None`. */
  lemma HandleClassifies(ex: Exchange, r: RawResponse, asynchronous: bool)
    ensures r.status in TerminalStatuses ==> Handle(ex, r, asynchronous) == JStr(r.text)
    ensures r.status !in TerminalStatuses && RaisesForStatus(r.status) ==> Handle(ex, r, asynchronous) == JNull
    ensures r.status !in TerminalStatuses && r.parsed.None? ==> Handle(ex, r, asynchronous) == JNull
  {
  }

  /** A successful object is returned with `cached` set to where it came from,
      every other key reading as parsed. */
  lemma SharedTagsObject(r: RawResponse, fields: Dict<Json>, k: string)
    requires !RaisesForStatus(r.status) && r.parsed == Some(JObj(fields))
    ensures HandleShared(r, false).JObj?
    ensures Get(HandleShared(r, false).fields, "cached") == Some(JBool(r.fromCache))
    ensures k != "cached" ==> Get(HandleShared(r, false).fields, k) == Get(fields, k)
    ensures Keys(HandleShared(r, false).fields) == if "cached" in Keys(fields) then Keys(fields) else Keys(fields) + ["cached"]
  {
    GetSet(fields, "cached", JBool(r.fromCache), k);
    GetSet(fields, "cached", JBool(r.fromCache), "cached");
    SetKeys(fields, "cached", JBool(r.fromCache));
  }

  /** A successful list of objects is returned item by item, each copy tagged. */
  lemma SharedTagsList(r: RawResponse, items: seq<Json>)
    requires !RaisesForStatus(r.status) && r.parsed == Some(JArr(items))
    requires forall i :: 0 <= i < |items| ==> items[i].JObj?
    ensures HandleShared(r, false).JArr? && |HandleShared(r, false).items| == |items|
    ensures forall i :: 0 <= i < |items| ==>
      HandleShared(r, false).items[i] == JObj(Set(items[i].fields, "cached", JBool(r.fromCache)))
  {
  }

  /** A list with an item `dict()` refuses comes back untagged (unless the
      status is terminal, which it cannot be here). */
  lemma SharedUntaggedList(r: RawResponse, items: seq<Json>, i: nat)
    requires !RaisesForStatus(r.status) && r.parsed == Some(JArr(items))
    requires i < |items| && Copy(items[i]).None?
    ensures HandleShared(r, false) == JArr(items)
  {
  }

  /** In asynchronous mode the parsed value is returned as it is. */
  lemma SharedAsyncUntouched(r: RawResponse, v: Json)
    requires !RaisesForStatus(r.status) && r.parsed == Some(v)
    ensures HandleShared(r, true) == v
  {
  }

  /** Which handled responses the retry test `if not response` sees as a
      failure: an empty terminal text; otherwise an error status, a body that
      is not JSON, or a falsy parsed value other than an object (an empty
      object is tagged and so becomes truthy). */
  lemma SharedFalsyIff(r: RawResponse)
    ensures !Truthy(HandleShared(r, false)) <==>
      if r.status in TerminalStatuses then r.text == ""
      else RaisesForStatus(r.status) || r.parsed.None? || (!r.parsed.value.JObj? && !Truthy(r.parsed.value))
  {
    if !RaisesForStatus(r.status) && r.parsed.Some? {
      var v := r.parsed.value;
      match v
      case JObj(fields) =>
        GetSet(fields, "cached", JBool(r.fromCache), "cached");
      case JArr(items) =>
      case _ =>
    }
  }

  /** The object BitMEX appends to a list, or merges into an object. */
  function RateLimitObject(rl: Dict<Json>): Json {
    JObj([("ratelimit", JObj(rl))])
  }

  /** BitMEX with its three rate-limit headers present: a list is returned as
      its tagged (synchronous) or copied (asynchronous) items followed by the
      rate-limit object; an object gains `cached` and `ratelimit` and keeps
      every other key. */
  lemma BitmexAddsRateLimit(r: RawResponse, asynchronous: bool)
    requires !RaisesForStatus(r.status) && r.parsed.Some? && RateLimitFields(r).Some?
    ensures var v := r.parsed.value;
      var out := HandleBitmex(r, asynchronous);
      (!asynchronous && v.JArr? && TagAll(v.items, r.fromCache).Some? ==>
        out.JArr? && |out.items| == |v.items| + 1 &&
        out.items[..|v.items|] == TagAll(v.items, r.fromCache).value &&
        out.items[|v.items|] == RateLimitObject(RateLimitFields(r).value)) &&
      (asynchronous && v.JArr? && CopyAll(v.items).Some? ==>
        out.JArr? && |out.items| == |v.items| + 1 &&
        out.items[..|v.items|] == CopyAll(v.items).value &&
        out.items[|v.items|] == RateLimitObject(RateLimitFields(r).value))
  {
    var v := r.parsed.value;
    if !asynchronous && v.JArr? && TagAll(v.items, r.fromCache).Some? {
      var tagged := TagAll(v.items, r.fromCache).value;
      assert (tagged + [RateLimitObject(RateLimitFields(r).value)])[..|v.items|] == tagged;
    }
    if asynchronous && v.JArr? && CopyAll(v.items).Some? {
      var copies := CopyAll(v.items).value;
      assert (copies + [RateLimitObject(RateLimitFields(r).value)])[..|v.items|] == copies;
    }
  }

  /** The synchronous object case of the above. */
  lemma BitmexTagsObject(r: RawResponse, fields: Dict<Json>, k: string)
    requires !RaisesForStatus(r.status) && r.parsed == Some(JObj(fields)) && RateLimitFields(r).Some?
    ensures HandleBitmex(r, false).JObj?
    ensures Get(HandleBitmex(r, false).fields, "ratelimit") == Some(JObj(RateLimitFields(r).value))
    ensures Get(HandleBitmex(r, false).fields, "cached") == Some(JBool(r.fromCache))
    ensures k != "ratelimit" && k != "cached" ==> Get(HandleBitmex(r, false).fields, k) == Get(fields, k)
  {
    var rl := JObj(RateLimitFields(r).value);
    var tagged := Set(fields, "cached", JBool(r.fromCache));
    GetSet(tagged, "ratelimit", rl, "ratelimit");
    GetSet(tagged, "ratelimit", rl, "cached");
    GetSet(tagged, "ratelimit", rl, k);
    GetSet(fields, "cached", JBool(r.fromCache), "cached");
    GetSet(fields, "cached", JBool(r.fromCache), k);
  }

  /** Any missing rate-limit header raises after parsing: the parsed value is
      returned untagged. */
  lemma BitmexMissingHeader(r: RawResponse, asynchronous: bool)
    requires !RaisesForStatus(r.status) && r.parsed.Some?
    requires Get(r.headers, "x-ratelimit-limit").None? || Get(r.headers, "x-ratelimit-remaining").None?
      || Get(r.headers, "x-ratelimit-reset").None?
    ensures HandleBitmex(r, asynchronous) == r.parsed.value
  {
  }

  /** Asynchronous BitMEX iterates whatever was parsed: an object with a
      non-empty key cannot be copied, so it too comes back as parsed. */
  lemma BitmexAsyncObject(r: RawResponse, fields: Dict<Json>)
    requires !RaisesForStatus(r.status) && r.parsed == Some(JObj(fields)) && RateLimitFields(r).Some?
    requires fields != [] && fields[0].0 != ""
    ensures HandleBitmex(r, true) == JObj(fields)
  {
    assert Copy(KeyStrings(fields)[0]).None?;
  }

  /** Bitfinex success always yields an object (truthy, so never retried) whose
      `response` entry is the parsed value. */
  lemma BitfinexWraps(r: RawResponse, asynchronous: bool)
    requires !RaisesForStatus(r.status) && r.parsed.Some?
    ensures HandleBitfinex(r, asynchronous).JObj? && Truthy(HandleBitfinex(r, asynchronous))
    ensures Get(HandleBitfinex(r, asynchronous).fields, "response") == Some(r.parsed.value)
    ensures !asynchronous ==> Get(HandleBitfinex(r, asynchronous).fields, "cached") == Some(JBool(r.fromCache))
    ensures !asynchronous ==> HandleBitfinex(r, asynchronous) == JObj([("response", r.parsed.value), ("cached", JBool(r.fromCache))])
    ensures asynchronous ==> HandleBitfinex(r, asynchronous) == JObj([("response", r.parsed.value)])
  {
    var wrapped := [("response", r.parsed.value)];
    GetSet(wrapped, "cached", JBool(r.fromCache), "cached");
    assert Get(wrapped, "cached") == None;
  }
}
