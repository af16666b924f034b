/** The bounded retry loop around one API call. Each invocation of the
    wrapped function either returns a value or raises one of the errors
    the loop tells apart; the sequence of those outcomes is an input, and
    the loop's answer and the number of invocations are the outputs. */
module ErrorHandler {
  import opened Common

  /** What one invocation of the wrapped function raised. `URLError` is
      a network failure; `HTTPError` is matched before it, as in the
      source, where it is the subclass. */
  datatype Raised =
    | HTTPError(code: int, reason: string)
    | URLError(reason: string)
    | RateLimitError(message: string)
    | AuthenticationError(message: string)
    | Unexpected(name: string, message: string)

  datatype Outcome<T> = Success(value: T) | Raise(error: Raised)

  /** The loop's answer: the wrapped function's result, None after giving
      up, or an error raised to the caller. */
  datatype Handled<T> = Returned(result: Option<T>) | Raises(error: Raised)

  const DefaultMaxRetries := 1

  /** An outcome after which the loop tries again (if attempts remain). */
  predicate Retryable<T>(o: Outcome<T>) {
    o.Raise? && (o.error.URLError? || (o.error.HTTPError? && o.error.code != 429 && o.error.code != 401 && o.error.code != 403))
  }

  /** What the loop does from attempt `i` on: the answer and the number of
      invocations made in total. */
  function Run<T>(attempt: nat -> Outcome<T>, maxRetries: int, i: nat): (r: (Handled<T>, nat))
    ensures r.1 >= i
    decreases maxRetries + 1 - i
  {
    if i >= maxRetries + 1 then (Returned(None), i)
    else
      match attempt(i)
      case Success(v) => (Returned(Some(v)), i + 1)
      case Raise(HTTPError(code, reason)) =>
        if code == 429 then (Raises(RateLimitError("Rate limit exceeded: " + reason)), i + 1)
        else if code == 401 || code == 403 then (Raises(AuthenticationError("Authentication failed: " + reason)), i + 1)
        else Run(attempt, maxRetries, i + 1)
      case Raise(URLError(_)) => Run(attempt, maxRetries, i + 1)
      case Raise(_) => (Returned(None), i + 1)
  }

  /** `handle_api_call`: invokes the wrapped function once per attempt,
      for at most `maxRetries + 1` attempts. */
  method HandleApiCall<T>(attempt: nat -> Outcome<T>, maxRetries: int) returns (out: Handled<T>, calls: nat)
    ensures (out, calls) == Run(attempt, maxRetries, 0)
  {
    var a: nat := 0;
    while a < maxRetries + 1
      invariant Run(attempt, maxRetries, 0) == Run(attempt, maxRetries, a)
      decreases maxRetries + 1 - a
    {
      var o := attempt(a);
      match o {
        case Success(v) =>
          return Returned(Some(v)), a + 1;
        case Raise(e) =>
          if e.HTTPError? {
            if e.code == 429 {
              return Raises(RateLimitError("Rate limit exceeded: " + e.reason)), a + 1;
            }
            if e.code == 401 || e.code == 403 {
              return Raises(AuthenticationError("Authentication failed: " + e.reason)), a + 1;
            }
          } else if !e.URLError? {
            return Returned(None), a + 1;
          }
      }
      a := a + 1;
    }
    return Returned(None), a;
  }

  /** The wrapped function is invoked at most `maxRetries + 1` times. */
  lemma {:induction false} CallsBounded<T>(attempt: nat -> Outcome<T>, maxRetries: int, i: nat)
    ensures Run(attempt, maxRetries, i).1 <= if i <= maxRetries + 1 then maxRetries + 1 else i
    decreases maxRetries + 1 - i
  {
    if i < maxRetries + 1 && Retryable(attempt(i)) {
      CallsBounded(attempt, maxRetries, i + 1);
    }
  }

  /** With the default of one retry, at most two calls are made. */
  lemma DefaultAtMostTwoCalls<T>(attempt: nat -> Outcome<T>)
    ensures Run(attempt, DefaultMaxRetries, 0).1 <= 2
  {
    CallsBounded(attempt, DefaultMaxRetries, 0);
  }

  /** After retryable failures at attempts i..k-1, attempt k decides: the
      loop answers as if it had started there. */
  lemma {:induction false} SkipRetryable<T>(attempt: nat -> Outcome<T>, maxRetries: int, i: nat, k: nat)
    requires i <= k <= maxRetries + 1
    requires forall j :: i <= j < k ==> Retryable(attempt(j))
    ensures Run(attempt, maxRetries, i) == Run(attempt, maxRetries, k)
    decreases k - i
  {
    if i < k {
      assert Retryable(attempt(i));
      SkipRetryable(attempt, maxRetries, i + 1, k);
    }
  }

  /** The first success is returned unchanged, after exactly `k + 1` calls. */
  lemma FirstSuccessReturned<T>(attempt: nat -> Outcome<T>, maxRetries: int, k: nat)
    requires k <= maxRetries
    requires forall j :: 0 <= j < k ==> Retryable(attempt(j))
    requires attempt(k).Success?
    ensures Run(attempt, maxRetries, 0) == (Returned(Some(attempt(k).value)), k + 1)
  {
    SkipRetryable(attempt, maxRetries, 0, k);
  }

  /** A 429 or a 401/403 is raised to the caller at once, without retry. */
  lemma RefusalFailsFast<T>(attempt: nat -> Outcome<T>, maxRetries: int, k: nat)
    requires k <= maxRetries
    requires forall j :: 0 <= j < k ==> Retryable(attempt(j))
    requires attempt(k).Raise? && attempt(k).error.HTTPError?
    requires attempt(k).error.code in {429, 401, 403}
    ensures var (out, calls) := Run(attempt, maxRetries, 0);
            calls == k + 1
            && (attempt(k).error.code == 429 ==> out.Raises? && out.error.RateLimitError?)
            && (attempt(k).error.code != 429 ==> out.Raises? && out.error.AuthenticationError?)
  {
    SkipRetryable(attempt, maxRetries, 0, k);
  }

  /** Any other error ends the loop at once with None, even a rate-limit
      or authentication error raised by the wrapped function itself. */
  lemma UnexpectedErrorStops<T>(attempt: nat -> Outcome<T>, maxRetries: int, k: nat)
    requires k <= maxRetries
    requires forall j :: 0 <= j < k ==> Retryable(attempt(j))
    requires attempt(k).Raise? && !attempt(k).error.HTTPError? && !attempt(k).error.URLError?
    ensures Run(attempt, maxRetries, 0) == (Returned(None), k + 1)
  {
    SkipRetryable(attempt, maxRetries, 0, k);
  }

  /** When every attempt fails in a retryable way, all `maxRetries + 1`
      attempts are made and the answer is None. */
  lemma RetriesExhausted<T>(attempt: nat -> Outcome<T>, maxRetries: nat)
    requires forall j :: 0 <= j <= maxRetries ==> Retryable(attempt(j))
    ensures Run(attempt, maxRetries, 0) == (Returned(None), maxRetries + 1)
  {
    SkipRetryable(attempt, maxRetries, 0, maxRetries + 1);
  }

  /** `is_rate_limit_error`: never also an authentication error. */
  predicate IsRateLimitError(e: Raised)
    ensures IsRateLimitError(e) ==> !IsAuthError(e)
  {
    e.RateLimitError? || (e.HTTPError? && e.code == 429)
  }

  /** `is_auth_error`: an HTTP response so classified is a 4xx refusal,
      and no network failure or unexpected exception is one. */
  predicate IsAuthError(e: Raised)
    ensures IsAuthError(e) && e.HTTPError? ==> 400 <= e.code < 500
    ensures e.URLError? || e.Unexpected? ==> !IsAuthError(e)
  {
    e.AuthenticationError? || (e.HTTPError? && (e.code == 401 || e.code == 403))
  }

  /** No error is both a rate-limit and an authentication error, and every
      error the loop raises is one of the two. */
  lemma {:induction false} RaisedErrorsClassified<T>(attempt: nat -> Outcome<T>, maxRetries: int, i: nat)
    ensures var out := Run(attempt, maxRetries, i).0;
            out.Raises? ==> (IsRateLimitError(out.error) != IsAuthError(out.error))
    decreases maxRetries + 1 - i
  {
    if i < maxRetries + 1 && Retryable(attempt(i)) {
      RaisedErrorsClassified(attempt, maxRetries, i + 1);
    }
  }
}
