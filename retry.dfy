/** The synchronous `_request` of every wrapper: send, handle the response,
    and, when `max_retries > 0` and the handled value is falsy, call the inner
    `retry()`, which counts the retry in the instance's `retries` field,
    raises "Retry limit hit." once the count reaches `max_retries`, and
    otherwise calls `_request` again. The retry's own result is not returned:
    the caller gets the response of its own attempt. `send(k)` is what the
    `k`-th send of one call yields; the pause between attempts is left out. */
module Retry {
  import opened Wrappers
  import opened Json
  import opened Registry
  import opened Response

  /** What one attempt does, from preparing and signing the request to
      `session.send(...)`: return a response, or raise (the signer's
      `AttributeError` for a missing secret, a connection error, a timeout,
      ...), which nothing catches. */
  datatype Attempt = Received(raw: RawResponse) | Threw(reason: string)

  type Sender = nat -> Attempt

  /** The result of one call, the counter it leaves behind, and how many
      sends it made (`attempts` is the index of the next send). */
  datatype Run = Run(result: Result<Json>, retries: int, attempts: nat)

  /** `_request` called for the `k`-th send with the counter at `retries`, as written. */
  function RequestSpec(ex: Exchange, send: Sender, k: nat, retries: int, maxRetries: int): Run
    decreases maxRetries - retries
  {
    match send(k)
    case Threw(reason) => Run(Err(AttemptRaised(reason)), retries, k + 1)
    case Received(raw) =>
      var response := Handle(ex, raw, false);
      if maxRetries <= 0 then Run(Ok(response), retries, k + 1)
      else if Truthy(response) then Run(Ok(response), 0, k + 1)
      else if retries + 1 >= maxRetries then Run(Err(RetryLimitHit), retries + 1, k + 1)
      else Keep(Some(response), RequestSpec(ex, send, k + 1, retries + 1, maxRetries))
  }

  /** How an enclosing call whose own response was `first` finishes once the
      nested call has: an exception passes through, a normal return is
      discarded in favour of `first` and resets the counter. */
  function Keep(first: Option<Json>, inner: Run): Run {
    if first.None? || inner.result.Err? then inner
    else Run(Ok(first.value), 0, inner.attempts)
  }

  lemma KeepKeep(first: Option<Json>, next: Json, inner: Run)
    ensures Keep(first, Keep(Some(next), inner)) == Keep(if first.None? then Some(next) else first, inner)
  {
  }

  /** The wrapper instance's retry state. */
  class Requester {
    var retries: int
    var maxRetries: int

    /** `self.max_retries = max_retries; self.retries = 0`. */
    constructor (maxRetries: int)
      ensures this.retries == 0 && this.maxRetries == maxRetries
    {
      retries := 0;
      this.maxRetries := maxRetries;
    }

    /** One call of `_request` for exchange `ex`: the Python recursion through
        `retry()` unrolled into a loop over the attempts. */
    method Request(ex: Exchange, send: Sender) returns (result: Result<Json>, attempts: nat)
      modifies this
      ensures maxRetries == old(maxRetries)
      ensures Run(result, retries, attempts) == RequestSpec(ex, send, 0, old(retries), maxRetries)
    {
      var k: nat := 0;
      var first: Option<Json> := None;
      while true
        invariant maxRetries == old(maxRetries)
        invariant first.None? <==> k == 0
        invariant RequestSpec(ex, send, 0, old(retries), maxRetries) == Keep(first, RequestSpec(ex, send, k, retries, maxRetries))
        decreases maxRetries - retries
      {
        var attempt := send(k);
        ghost var before := RequestSpec(ex, send, k, retries, maxRetries);
        k := k + 1;
        match attempt
        case Threw(reason) =>
          result, attempts := Err(AttemptRaised(reason)), k;
          return;
        case Received(raw) =>
          var response := Handle(ex, raw, false);
          var kept := if first.None? then Some(response) else first;
          if maxRetries <= 0 {
            result, attempts := Ok(kept.value), k;
            return;
          }
          if Truthy(response) {
            retries := 0;
            result, attempts := Ok(kept.value), k;
            return;
          }
          retries := retries + 1;
          if retries >= maxRetries {
            result, attempts := Err(RetryLimitHit), k;
            return;
          }
          KeepKeep(first, response, RequestSpec(ex, send, k, retries, maxRetries));
          first := kept;
      }
    }
  }

  // ------------------------------------------------------------------ properties

  /** Without retries (`max_retries <= 0`) there is exactly one send, its
      handled response is returned whatever it is, and the counter is untouched. */
  lemma NoRetriesOneAttempt(ex: Exchange, send: Sender, retries: int, maxRetries: int)
    requires maxRetries <= 0
    ensures RequestSpec(ex, send, 0, retries, maxRetries).attempts == 1
    ensures RequestSpec(ex, send, 0, retries, maxRetries).retries == retries
    ensures send(0).Received? ==> RequestSpec(ex, send, 0, retries, maxRetries).result == Ok(Handle(ex, send(0).raw, false))
  {
  }

  /** Every send from `k` to `n - 1` arrives and is handled to a falsy value. */
  ghost predicate AllFalsy(ex: Exchange, send: Sender, k: nat, n: nat) {
    forall j :: k <= j < n ==> send(j).Received? && !Truthy(Handle(ex, send(j).raw, false))
  }

  /** With `max_retries = n > 0` and a fresh counter, `n` falsy responses in a
      row make exactly `n` sends and then raise "Retry limit hit.", leaving
      the counter at `n`. */
  lemma {:induction false} AllFalsyExhausts(ex: Exchange, send: Sender, k: nat, n: nat)
    requires 0 <= k < n && AllFalsy(ex, send, k, n)
    ensures RequestSpec(ex, send, k, k, n) == Run(Err(RetryLimitHit), n, n)
    decreases n - k
  {
    if k + 1 < n {
      AllFalsyExhausts(ex, send, k + 1, n);
    }
  }

  lemma FreshCounterExhausts(ex: Exchange, send: Sender, n: nat)
    requires 0 < n && AllFalsy(ex, send, 0, n)
    ensures RequestSpec(ex, send, 0, 0, n) == Run(Err(RetryLimitHit), n, n)
  {
    AllFalsyExhausts(ex, send, 0, n);
  }

  /** With retries on, a normal return always leaves the counter at 0 and
      returns the handled response of the call's own first send. */
  lemma NormalReturnResets(ex: Exchange, send: Sender, k: nat, retries: int, maxRetries: int)
    requires maxRetries > 0 && RequestSpec(ex, send, k, retries, maxRetries).result.Ok?
    ensures RequestSpec(ex, send, k, retries, maxRetries).retries == 0
    ensures send(k).Received?
    ensures RequestSpec(ex, send, k, retries, maxRetries).result == Ok(Handle(ex, send(k).raw, false))
  {
  }

  /** As written: a falsy first response followed by a truthy one returns the
      falsy first response, after two sends. */
  lemma NestedResultDiscarded(ex: Exchange, send: Sender)
    requires send(0) == Received(RawResponse(503, "", false, None, []))
    requires send(1) == Received(RawResponse(200, "{\"ok\": true}", false, Some(JObj([("ok", JBool(true))])), []))
    ensures RequestSpec(ex, send, 0, 0, 3) == Run(Ok(JNull), 0, 2)
  {
    assert Handle(ex, send(0).raw, false) == JNull;
    assert Truthy(Handle(ex, send(1).raw, false));
  }

  /** As written: a call that raised "Retry limit hit." leaves the counter at
      the limit, so the next call on the same instance raises after a single
      falsy response. */
  lemma StaleCounterAfterLimit(ex: Exchange, send: Sender, next: Sender, n: nat)
    requires 0 < n && AllFalsy(ex, send, 0, n) && AllFalsy(ex, next, 0, 1)
    ensures RequestSpec(ex, send, 0, 0, n).retries == n
    ensures RequestSpec(ex, next, 0, RequestSpec(ex, send, 0, 0, n).retries, n) == Run(Err(RetryLimitHit), n + 1, 1)
  {
    FreshCounterExhausts(ex, send, n);
  }

  /** A terminal status with a non-empty body is returned at once: it is truthy. */
  lemma TerminalNotRetried(ex: Exchange, send: Sender, retries: int, maxRetries: int)
    requires send(0).Received? && send(0).raw.status in TerminalStatuses && send(0).raw.text != ""
    ensures RequestSpec(ex, send, 0, retries, maxRetries).attempts == 1
    ensures RequestSpec(ex, send, 0, retries, maxRetries).result == Ok(JStr(send(0).raw.text))
  {
    HandleClassifies(ex, send(0).raw, false);
  }

  // ------------------------------------------------------------------ corrected

  /** `_request` as evidently intended: `return retry()` passes the retried
      result up, and the counter is cleared when the limit is hit too. */
  function RequestFixed(ex: Exchange, send: Sender, k: nat, retries: int, maxRetries: int): Run
    decreases maxRetries - retries
  {
    match send(k)
    case Threw(reason) => Run(Err(AttemptRaised(reason)), retries, k + 1)
    case Received(raw) =>
      var response := Handle(ex, raw, false);
      if maxRetries <= 0 then Run(Ok(response), retries, k + 1)
      else if Truthy(response) then Run(Ok(response), 0, k + 1)
      else if retries + 1 >= maxRetries then Run(Err(RetryLimitHit), 0, k + 1)
      else RequestFixed(ex, send, k + 1, retries + 1, maxRetries)
  }

  /** With the correction and retries on, a value is only ever returned when it
      is truthy and it is the last response received; every exit other than an
      exception from `send` leaves the counter at 0, so each call gets the full
      budget. */
  lemma {:induction false} RequestFixedProperties(ex: Exchange, send: Sender, k: nat, retries: int, maxRetries: int)
    requires maxRetries > 0
    ensures var run := RequestFixed(ex, send, k, retries, maxRetries);
      (run.result.Ok? ==> (Truthy(run.result.value) && k < run.attempts &&
        send(run.attempts - 1).Received? && run.result.value == Handle(ex, send(run.attempts - 1).raw, false))) &&
      (run.result.Err? && run.result.error == RetryLimitHit ==> run.retries == 0) &&
      (run.result.Ok? ==> run.retries == 0)
    decreases maxRetries - retries
  {
    if send(k).Received? && !Truthy(Handle(ex, send(k).raw, false)) && retries + 1 < maxRetries {
      RequestFixedProperties(ex, send, k + 1, retries + 1, maxRetries);
    }
  }

  /** With the correction, the same falsy-then-truthy sequence returns the
      truthy second response. */
  lemma FixedReturnsRetried(ex: Exchange, send: Sender)
    requires send(0) == Received(RawResponse(503, "", false, None, []))
    requires send(1) == Received(RawResponse(200, "{\"ok\": true}", false, Some(JObj([("ok", JBool(true))])), []))
    ensures RequestFixed(ex, send, 0, 0, 3).result.Ok? && Truthy(RequestFixed(ex, send, 0, 0, 3).result.value)
  {
    assert Handle(ex, send(0).raw, false) == JNull;
    assert Truthy(Handle(ex, send(1).raw, false));
  }

  /** With the correction, a call after an exhausted one starts from 0 again
      and gets its `n` sends. */
  lemma {:induction false} FixedCounterFresh(ex: Exchange, send: Sender, next: Sender, n: nat)
    requires 0 < n && AllFalsy(ex, send, 0, n) && AllFalsy(ex, next, 0, n)
    ensures RequestFixed(ex, send, 0, 0, n) == Run(Err(RetryLimitHit), 0, n)
    ensures RequestFixed(ex, next, 0, RequestFixed(ex, send, 0, 0, n).retries, n) == Run(Err(RetryLimitHit), 0, n)
  {
    FixedExhausts(ex, send, 0, n);
    FixedExhausts(ex, next, 0, n);
  }

  lemma {:induction false} FixedExhausts(ex: Exchange, send: Sender, k: nat, n: nat)
    requires 0 <= k < n && AllFalsy(ex, send, k, n)
    ensures RequestFixed(ex, send, k, k, n) == Run(Err(RetryLimitHit), 0, n)
    decreases n - k
  {
    if k + 1 < n {
      FixedExhausts(ex, send, k + 1, n);
    }
  }
}
