/** Bounded-retry dispatch of one provider request.  The provider is an oracle: the reply to every request it
    could be sent, and a jitter value for every back-off. */
module RetryDispatch {
  import opened Numbers
  import opened Wrappers

  /** `retryAfter` is the header when it consists of digits; `body` is the parsed JSON if it parses. */
  datatype Reply<T> =
    | Http(status: int, retryAfter: Option<nat>, body: Option<T>)
    | NetworkFailure

  datatype Outcome<T> =
    | Data(value: T)
    | AuthError | QuotaExceeded | ServerError | ProviderError | ParserError | TimedOut | DispatchFailed

  /** Whether the reply is worth a retry. */
  predicate Transient<T>(r: Reply<T>) {
    r.NetworkFailure? || r.status == 429 || r.status >= 500
  }

  /** The result of a reply that ends the dispatch. */
  function Final<T>(r: Reply<T>): (o: Outcome<T>)
    requires !Transient(r)
  {
    if r.status == 401 || r.status == 403 then AuthError
    else if r.status != 200 then ProviderError
    else if r.body.None? then ParserError
    else Data(r.body.value)
  }

  /** The error raised when a transient reply is the last one allowed. */
  function Exhausted<T>(r: Reply<T>): (o: Outcome<T>)
    requires Transient(r)
  {
    if r.NetworkFailure? then TimedOut else if r.status == 429 then QuotaExceeded else ServerError
  }

  function Pow2(n: nat): (p: real)
    ensures p >= 1.0
  {
    if n == 0 then 1.0 else 2.0 * Pow2(n - 1)
  }

  function Backoff(attempt: nat, jitter: real): (w: real) { 0.5 * Pow2(attempt) + jitter * 0.2 }

  /** The pause after a transient reply to the given attempt. */
  function Wait<T>(r: Reply<T>, attempt: nat, jitter: real): (w: real)
    requires Transient(r)
  {
    if r.Http? && r.status == 429 then
      var s := if r.retryAfter.Some? then r.retryAfter.value as real else 2.0;
      if s < 5.0 then s else 5.0
    else Backoff(attempt, jitter)
  }

  /** The first of the first n replies that is not transient, or n. */
  function FirstFinal<T>(replies: seq<Reply<T>>, n: nat): (k: nat)
    requires n <= |replies|
    ensures k <= n
    ensures forall i :: 0 <= i < k ==> Transient(replies[i])
    ensures k < n ==> !Transient(replies[k])
  {
    if n == 0 then 0
    else
      var k := FirstFinal(replies, n - 1);
      if k < n - 1 then k else if Transient(replies[n - 1]) then n else n - 1
  }

  /** The pauses after the first n replies. */
  function Slept<T>(replies: seq<Reply<T>>, jitter: seq<real>, n: nat): (s: real)
    requires n <= |replies| && n <= |jitter|
    requires forall i :: 0 <= i < n ==> Transient(replies[i])
  {
    if n == 0 then 0.0 else Slept(replies, jitter, n - 1) + Wait(replies[n - 1], n - 1, jitter[n - 1])
  }

  /** What the dispatch comes to: the first final reply if it is among the first maxRetries + 1, and otherwise the
      error of the last of these. */
  function OutcomeOf<T>(replies: seq<Reply<T>>, maxRetries: int): (o: Outcome<T>)
    requires maxRetries + 1 <= |replies|
  {
    if maxRetries < 0 then DispatchFailed
    else
      var k := FirstFinal(replies, maxRetries + 1);
      if k <= maxRetries then Final(replies[k]) else Exhausted(replies[maxRetries])
  }

  /** What the reply to the last request makes of the dispatch, status by status. */
  predicate ReportsOn<T(==)>(o: Outcome<T>, last: Reply<T>) {
    && (o == TimedOut <==> last.NetworkFailure?)
    && (o == QuotaExceeded <==> last.Http? && last.status == 429)
    && (o == ServerError <==> last.Http? && last.status >= 500)
    && (o == AuthError <==> last.Http? && last.status in {401, 403})
    && (o == ParserError <==> last.Http? && last.status == 200 && last.body.None?)
    && (o.Data? <==> last.Http? && last.status == 200 && last.body.Some?)
    && (o.Data? ==> last.body == Some(o.value))
    && o != DispatchFailed
  }

  /** The dispatch sends requests up to and including the first final reply, at most maxRetries + 1 of them, and
      pauses after every other one it retries. */
  method Dispatch<T>(replies: seq<Reply<T>>, jitter: seq<real>, maxRetries: int)
    returns (outcome: Outcome<T>, requests: nat, slept: real)
    requires maxRetries + 1 <= |replies| && maxRetries + 1 <= |jitter|
    ensures outcome == OutcomeOf(replies, maxRetries)
    ensures maxRetries < 0 ==> requests == 0 && slept == 0.0
    ensures maxRetries >= 0 ==>
              var k := FirstFinal(replies, maxRetries + 1);
              if k <= maxRetries
              then requests == k + 1 && slept == Slept(replies, jitter, k)
              else requests == maxRetries + 1 && slept == Slept(replies, jitter, maxRetries)
    ensures maxRetries >= 0 ==> 1 <= requests <= maxRetries + 1
    ensures forall k :: 0 <= k < requests - 1 ==>
              replies[k].NetworkFailure? || replies[k].status == 429 || replies[k].status >= 500
    ensures 0 < requests <= maxRetries ==>
              var last := replies[requests - 1]; last.Http? && last.status != 429 && last.status < 500
    ensures requests > 0 ==> ReportsOn(outcome, replies[requests - 1])
  {
    requests, slept := 0, 0.0;
    var attempt := 0;
    while attempt < maxRetries + 1
      invariant 0 <= attempt && (attempt == 0 || attempt <= maxRetries)
      invariant requests == attempt
      invariant attempt <= |replies| && attempt <= |jitter|
      invariant forall i :: 0 <= i < attempt ==> Transient(replies[i])
      invariant slept == Slept(replies, jitter, attempt)
    {
      var r := replies[attempt];
      requests := requests + 1;
      if !Transient(r) {
        FirstFinalIs(replies, maxRetries + 1, attempt);
        return Final(r), requests, slept;
      }
      if attempt == maxRetries {
        assert FirstFinal(replies, maxRetries + 1) == maxRetries + 1;
        return Exhausted(r), requests, slept;
      }
      slept := slept + Wait(r, attempt, jitter[attempt]);
      attempt := attempt + 1;
    }
    outcome := DispatchFailed;
  }

  lemma {:induction false} FirstFinalIs<T>(replies: seq<Reply<T>>, n: nat, k: nat)
    requires k < n <= |replies| && !Transient(replies[k])
    requires forall i :: 0 <= i < k ==> Transient(replies[i])
    ensures FirstFinal(replies, n) == k
  {
    if n - 1 > k {
      FirstFinalIs(replies, n - 1, k);
    }
  }

  // ---- Consequences ----

  /** Data comes back exactly when a parseable 200 arrives within the allowed requests and only transient
      replies came before it. */
  lemma DataIff<T>(replies: seq<Reply<T>>, maxRetries: int)
    requires maxRetries + 1 <= |replies|
    ensures OutcomeOf(replies, maxRetries).Data? <==>
            exists k :: 0 <= k <= maxRetries && replies[k].Http? && replies[k].status == 200
                        && replies[k].body.Some? && forall i :: 0 <= i < k ==> Transient(replies[i])
  {
    if k :| 0 <= k <= maxRetries && replies[k].Http? && replies[k].status == 200
            && replies[k].body.Some? && forall i :: 0 <= i < k ==> Transient(replies[i]) {
      FirstFinalIs(replies, maxRetries + 1, k);
    }
  }

  /** The statement after the loop is reached only with a negative retry count. */
  lemma DispatchFailedIff<T>(replies: seq<Reply<T>>, maxRetries: int)
    requires maxRetries + 1 <= |replies|
    ensures OutcomeOf(replies, maxRetries) == DispatchFailed <==> maxRetries < 0
  {
  }

  /** An authentication error is never retried: the dispatch stops at the first one, whatever could follow. */
  lemma AuthStops<T>(replies: seq<Reply<T>>, maxRetries: int, k: nat)
    requires k <= maxRetries < |replies|
    requires replies[k].Http? && (replies[k].status == 401 || replies[k].status == 403)
    requires forall i :: 0 <= i < k ==> Transient(replies[i])
    ensures FirstFinal(replies, maxRetries + 1) == k && OutcomeOf(replies, maxRetries) == AuthError
  {
    FirstFinalIs(replies, maxRetries + 1, k);
  }

  function SleepBound(n: nat): (s: real) {
    if n == 0 then 0.0 else SleepBound(n - 1) + Larger(5.0, 0.5 * Pow2(n - 1) + 0.2)
  }

  /** The total pause is at most the sum of max(5, 0.5 * 2^a + 0.2) over the retries, whatever the server asks
      for and whatever the jitter. */
  lemma {:induction false} SleepBounded<T>(replies: seq<Reply<T>>, jitter: seq<real>, n: nat)
    requires n <= |replies| && n <= |jitter|
    requires forall i :: 0 <= i < n ==> Transient(replies[i])
    requires forall i :: 0 <= i < n ==> 0.0 <= jitter[i] < 1.0
    ensures 0.0 <= Slept(replies, jitter, n) <= SleepBound(n)
  {
    if n > 0 {
      SleepBounded(replies, jitter, n - 1);
      assert 0.0 <= jitter[n - 1] * 0.2 <= 0.2;
    }
  }

  /** The pause after each transient reply: what the server asks for, or two seconds, but at most five; or half a second
      doubled with every attempt, and up to a fifth of a second more. */
  lemma PauseLength<T>(r: Reply<T>, attempt: nat, jitter: real)
    requires Transient(r) && 0.0 <= jitter < 1.0
    ensures r.Http? && r.status == 429 && r.retryAfter.None? ==> Wait(r, attempt, jitter) == 2.0
    ensures r.Http? && r.status == 429 && r.retryAfter.Some? && r.retryAfter.value <= 5 ==>
              Wait(r, attempt, jitter) == r.retryAfter.value as real
    ensures r.Http? && r.status == 429 && r.retryAfter.Some? && r.retryAfter.value > 5 ==>
              Wait(r, attempt, jitter) == 5.0
    ensures r.NetworkFailure? || r.status >= 500 ==>
              0.5 * Pow2(attempt) <= Wait(r, attempt, jitter) < 0.5 * Pow2(attempt) + 0.2
  {
  }

  lemma PowersDouble(n: nat)
    ensures Pow2(0) == 1.0 && Pow2(n + 1) == 2.0 * Pow2(n)
  {
  }

  /** One more transient reply adds its own pause. */
  lemma PausesAdd<T>(replies: seq<Reply<T>>, jitter: seq<real>, n: nat)
    requires n < |replies| && n < |jitter| && forall i :: 0 <= i <= n ==> Transient(replies[i])
    ensures Slept(replies, jitter, 0) == 0.0
    ensures Slept(replies, jitter, n + 1) == Slept(replies, jitter, n) + Wait(replies[n], n, jitter[n])
  {
  }
}
