/** The settings every scraper inherits from its common base: the
    retryable status codes, the default request headers and the two timing
    constants, plus the per-scraper pacing overrides.
 */
module Api {
  import opened Wrappers

  /** `RETRY_CODES`, in source order: too many requests, internal server
      error, bad gateway, gateway timeout, service unavailable. */
  const RetryCodes: seq<int> := [429, 500, 502, 504, 503]

  /** A status the retry loop may try again. */
  predicate IsRetryable(status: int) {
    status in RetryCodes
  }

  /** The retryable statuses are exactly these five; every other status
      (200, 400, 403, 404, ...) is not retryable. */
  lemma RetryableExactly(status: int)
    ensures IsRetryable(status) <==> status in {429, 500, 502, 503, 504}
  {
  }

  /** The list has no repeated code, so its set has five members. */
  function RetrySet(): (s: set<int>)
    ensures |s| == 5
    ensures forall c :: c in s <==> IsRetryable(c)
  {
    var s := {429, 500, 502, 503, 504};
    assert s == {429} + {500} + {502} + {503} + {504};
    s
  }

  /** `RETRY_TIME` and the base `REQUEST_INTERVAL_TIME`, in seconds. */
  const RetryTime: real := 5.0
  const RequestIntervalTime: real := 0.5

  /** The pacing each scraper overrides it with. */
  const GamalyticInterval: real := 0.25
  const GetItemsInterval: real := 2.0
  const ReviewStatsInterval: real := 0.5

  type Headers = seq<(string, string)>

  /** The value of the first header with the given name. */
  function HeaderValue(h: Headers, name: string): Option<string> {
    if h == [] then None
    else if h[0].0 == name then Some(h[0].1)
    else HeaderValue(h[1..], name)
  }

  function HeaderNames(h: Headers): seq<string> {
    seq(|h|, i requires 0 <= i < |h| => h[i].0)
  }

  /** `HEADERS` for a scraper whose base URL is `baseUrl`; the user agent
      string comes from an outside library and is a parameter. */
  function DefaultHeaders(baseUrl: string, userAgent: string): (h: Headers)
    ensures HeaderNames(h) == ["Accept", "Content-Type", "Origin", "Referer", "User-Agent"]
    ensures HeaderValue(h, "Accept") == Some("*/*")
    ensures HeaderValue(h, "Content-Type") == Some("application/json")
    ensures HeaderValue(h, "Origin") == Some(baseUrl) && HeaderValue(h, "Referer") == Some(baseUrl)
    ensures HeaderValue(h, "User-Agent") == Some(userAgent)
  {
    var h := [("Accept", "*/*"),
              ("Content-Type", "application/json"),
              ("Origin", baseUrl),
              ("Referer", baseUrl),
              ("User-Agent", userAgent)];
    assert h[1..][1..][1..][1..] == h[4..];
    assert HeaderValue(h[4..], "User-Agent") == Some(userAgent);
    assert HeaderValue(h[3..], "User-Agent") == Some(userAgent);
    assert HeaderValue(h[2..], "User-Agent") == Some(userAgent);
    assert HeaderValue(h[3..], "Referer") == Some(baseUrl);
    assert HeaderValue(h[2..], "Referer") == Some(baseUrl);
    assert HeaderValue(h[1..], "Referer") == Some(baseUrl);
    assert HeaderValue(h[2..], "Origin") == Some(baseUrl);
    assert HeaderValue(h[1..], "Origin") == Some(baseUrl);
    h
  }
}
