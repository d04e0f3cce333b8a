/** The correction client of the Electron main process: `correctTextWithRetry`
    (bounded retry over the backend's outcomes) and the classification of the
    manual `correct-text` IPC handler. The backend is a script: `respond(k)`
    is the outcome of the k-th request (counted from zero); each retry delay
    is counted as one wait. */
module RetryClient {

  import opened Common
  import opened Protocol

  /** Attempt budget: 100 attempts of 3000 ms each, about five minutes. */
  const MaxRetries := 100

  /** A body that is not `loading` ends the loop and is returned as is. */
  predicate IsData(o: Outcome) {
    o.Responded? && o.body.status != "loading"
  }

  /** A `loading` body, a refused connection or an HTTP 503: wait and retry. */
  predicate Retryable(o: Outcome) {
    (o.Responded? && o.body.status == "loading") || o.Refused? || (o.HttpFailure? && o.code == 503)
  }

  /** Any other thrown error: give up at once with `null`. */
  predicate Fatal(o: Outcome) {
    (o.HttpFailure? && o.code != 503) || o.OtherFailure?
  }

  /** The three classes split every outcome. */
  lemma ClassesPartition(o: Outcome)
    ensures IsData(o) || Retryable(o) || Fatal(o)
    ensures !(IsData(o) && Retryable(o)) && !(IsData(o) && Fatal(o)) && !(Retryable(o) && Fatal(o))
  {
  }

  /** The value returned (`None` for `null`), requests issued and delays
      waited. */
  datatype Attempt = Attempt(result: Option<Body>, requests: nat, waits: nat)

  /** What a run of the loop looks like against `respond`: within budget,
      every request but the last was retryable, the last decides the result
      (data returned unchanged; `null` for a fatal error or for a retryable
      outcome on the final attempt), and one wait follows each retryable
      outcome, including the final one. */
  predicate Classified(respond: nat -> Outcome, a: Attempt) {
    && 1 <= a.requests <= MaxRetries
    && (forall k :: 0 <= k < a.requests - 1 ==> Retryable(respond(k)))
    && (a.result.Some? <==> IsData(respond(a.requests - 1)))
    && (a.result.Some? ==> respond(a.requests - 1) == Responded(a.result.value))
    && (a.result.None? ==> Fatal(respond(a.requests - 1)) || (a.requests == MaxRetries && Retryable(respond(a.requests - 1))))
    && a.waits == (if Retryable(respond(a.requests - 1)) then a.requests else a.requests - 1)
  }

  /** The loop from attempt `i` on, as a recursive definition; `waits` counts
      only the waits from attempt `i` on. */
  function RetryFrom(respond: nat -> Outcome, i: nat): (a: Attempt)
    requires i < MaxRetries
    ensures i < a.requests <= MaxRetries
    ensures forall k :: i <= k < a.requests - 1 ==> Retryable(respond(k))
    ensures a.result.Some? <==> IsData(respond(a.requests - 1))
    ensures a.result.Some? ==> respond(a.requests - 1) == Responded(a.result.value)
    ensures a.result.None? ==> Fatal(respond(a.requests - 1)) || (a.requests == MaxRetries && Retryable(respond(a.requests - 1)))
    ensures a.waits == a.requests - 1 - i + (if Retryable(respond(a.requests - 1)) then 1 else 0)
    decreases MaxRetries - i
  {
    var o := respond(i);
    if IsData(o) then Attempt(Some(o.body), i + 1, 0)
    else if Retryable(o) then
      if i + 1 == MaxRetries then Attempt(None, i + 1, 1)
      else
        var a := RetryFrom(respond, i + 1);
        a.(waits := a.waits + 1)
    else Attempt(None, i + 1, 0)
  }

  /** The reference definition of `correctTextWithRetry`. */
  function Retry(respond: nat -> Outcome): (a: Attempt)
    ensures Classified(respond, a)
  {
    RetryFrom(respond, 0)
  }

  /** `Classified` pins the run down: two runs it accepts are the same. */
  lemma ClassifiedUnique(respond: nat -> Outcome, a: Attempt, b: Attempt)
    requires Classified(respond, a) && Classified(respond, b)
    ensures a == b
  {
  }

  /** `correctTextWithRetry(text)`: the loop itself. */
  method CorrectTextWithRetry(respond: nat -> Outcome) returns (result: Option<Body>, requests: nat, waits: nat)
    ensures Classified(respond, Attempt(result, requests, waits))
    ensures Attempt(result, requests, waits) == Retry(respond)
  {
    requests, waits := 0, 0;
    var i := 0;
    while i < MaxRetries
      invariant i <= MaxRetries
      invariant requests == i && waits == i
      invariant forall k :: 0 <= k < i ==> Retryable(respond(k))
    {
      var o := respond(i);
      requests := requests + 1;
      if o.Responded? {
        if o.body.status == "loading" {
          waits := waits + 1;
          i := i + 1;
          continue;
        }
        result := Some(o.body);
        ClassifiedUnique(respond, Attempt(result, requests, waits), Retry(respond));
        return;
      }
      if o.Refused? || (o.HttpFailure? && o.code == 503) {
        waits := waits + 1;
      } else {
        result := None;
        ClassifiedUnique(respond, Attempt(result, requests, waits), Retry(respond));
        return;
      }
      i := i + 1;
    }
    result := None;
    ClassifiedUnique(respond, Attempt(result, requests, waits), Retry(respond));
  }

  /** N < 100 retryable outcomes and then data: the data is returned after
      N + 1 requests and N waits. Data includes an error body. */
  lemma RetryThenData(respond: nat -> Outcome, n: nat)
    requires n < MaxRetries
    requires forall k :: 0 <= k < n ==> Retryable(respond(k))
    requires IsData(respond(n))
    ensures Retry(respond) == Attempt(Some(respond(n).body), n + 1, n)
  {
    ClassifiedUnique(respond, Attempt(Some(respond(n).body), n + 1, n), Retry(respond));
  }

  /** A fatal error after N retryable outcomes: `null` after N + 1 requests,
      with no further request. */
  lemma RetryThenFatal(respond: nat -> Outcome, n: nat)
    requires n < MaxRetries
    requires forall k :: 0 <= k < n ==> Retryable(respond(k))
    requires Fatal(respond(n))
    ensures Retry(respond) == Attempt(None, n + 1, n)
  {
    ClassifiedUnique(respond, Attempt(None, n + 1, n), Retry(respond));
  }

  /** 100 retryable outcomes in a row: `null` after exactly 100 requests and
      100 waits. */
  lemma BudgetExhausted(respond: nat -> Outcome)
    requires forall k :: 0 <= k < MaxRetries ==> Retryable(respond(k))
    ensures Retry(respond) == Attempt(None, MaxRetries, MaxRetries)
  {
    ClassifiedUnique(respond, Attempt(None, MaxRetries, MaxRetries), Retry(respond));
  }

  const CannotConnectMessage := "No se pudo conectar con el servicio de corrección."
  const TooSlowMessage := "El modelo de corrección está tardando mucho en responder. Inténtalo de nuevo."

  /** The manual handler resolves with the corrected text or rejects with a
      user-facing message. */
  datatype ManualReply = Corrected(text: string) | Rejected(message: string)

  /** The `correct-text` IPC handler: one request; a truthy
      `corrected_sentence` is returned; everything else (including the
      handler's own "invalid response" error) is rethrown as the "cannot
      connect" text exactly for a refused connection and as the "taking too
      long" text otherwise. */
  function ManualCorrect(o: Outcome): (r: ManualReply)
    ensures r.Corrected? <==> o.Responded? && Truthy(o.body.correctedSentence)
    ensures r.Corrected? ==> Some(r.text) == o.body.correctedSentence && r.text != ""
    ensures r.Rejected? ==> (r.message == CannotConnectMessage <==> o.Refused?)
    ensures r.Rejected? ==> (r.message == CannotConnectMessage || r.message == TooSlowMessage)
  {
    if o.Responded? && Truthy(o.body.correctedSentence) then Corrected(o.body.correctedSentence.value)
    else if o.Refused? then Rejected(CannotConnectMessage)
    else Rejected(TooSlowMessage)
  }
}
