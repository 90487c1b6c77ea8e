/**
 * The callback the rate limiter runs when a client has used up its quota:
 * requests carrying the configured bypass flag pass, every other request is
 * refused with 429 and told how many whole seconds to wait.
 */
module RateLimiter {
  import opened Wrappers
  import opened Text
  import opened Http

  /** `ceil(pexpire / 1000)`: the remaining milliseconds rounded up to whole seconds. */
  function RetrySeconds(pexpire: int): (seconds: int)
    ensures (seconds - 1) * 1000 < pexpire <= seconds * 1000
  {
    (pexpire + 999) / 1000
  }

  /** The rounding is exact on whole seconds. */
  lemma WholeSeconds(k: int)
    ensures RetrySeconds(k * 1000) == k
  {
    var s := RetrySeconds(k * 1000);
    assert (s - 1) * 1000 < k * 1000 <= s * 1000;
    assert s - 1 < k <= s;
  }

  /** The least whole number of seconds that covers the wait. */
  lemma RetrySecondsLeast(pexpire: int, seconds: int)
    requires pexpire <= seconds * 1000
    ensures RetrySeconds(pexpire) <= seconds
  {
    var s := RetrySeconds(pexpire);
    assert (s - 1) * 1000 < seconds * 1000;
  }

  const RetryAfter := "Retry-After"

  /**
   * `custom_callback`: nothing when the request's `Rate-Limiter-Flag` header
   * equals the configured flag (both may be absent), otherwise 429 whose
   * detail and `Retry-After` header carry the same number of seconds.
   */
  function Callback(flagHeader: Option<string>, configuredFlag: Option<string>, pexpire: int): (r: Option<HttpError>)
    ensures r.None? <==> flagHeader == configuredFlag
    ensures r.Some? ==>
      && r.value.status == TooManyRequests
      && r.value.headers.Keys == {RetryAfter}
      && r.value.headers[RetryAfter] == IntToString(RetrySeconds(pexpire))
      && ParseInt(r.value.headers[RetryAfter]) == Some(RetrySeconds(pexpire))
      && r.value.detail == "Too many requests. Please try again after " + r.value.headers[RetryAfter] + " seconds."
  {
    if flagHeader == configuredFlag then None
    else
      var expire := RetrySeconds(pexpire);
      IntToStringRoundTrip(expire);
      Some(HttpError(TooManyRequests,
                     "Too many requests. Please try again after " + IntToString(expire) + " seconds.",
                     map[RetryAfter := IntToString(expire)]))
  }
}
