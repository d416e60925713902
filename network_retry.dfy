/**
 * Retrying a web request with exponential backoff: server errors and
 * timeouts are retried up to the configured number of attempts, waiting
 * 1, 2, 4, 8 and then 10 seconds between attempts; anything else completes
 * the request at once.
 */
module NetworkRetry {
  import opened Wrappers
  import opened Text
  import opened SupabaseConfig

  /** The outcome classes of a web request. */
  datatype RequestResult = InProgress | Success | ConnectionError | ProtocolError | DataProcessingError

  /**
   * A request as configured by its caller: headers, upload body and download
   * handler are what a retry loses; the timeout is set before every send.
   */
  datatype Request = Request(
    url: string,
    httpMethod: string,
    headers: seq<(string, string)>,
    uploadBody: Option<seq<bv8>>,
    hasDownloadHandler: bool,
    timeout: int)

  /** What a send produced; the downloaded text is only readable through a download handler. */
  datatype Response = Response(result: RequestResult, responseCode: int, error: Option<string>, downloadText: Option<string>)

  /** The message handed to the completion callback. */
  datatype Message = Succeeded | RetriesExceeded(limit: int) | Reported(text: Option<string>)

  datatype Completion = Completion(success: bool, message: Message)

  /** A transport or protocol error that is a 5xx status or whose error text mentions "timeout" (ordinal, case-sensitive). */
  predicate ShouldRetry(r: Response)
  {
    && (r.result == ConnectionError || r.result == ProtocolError)
    && ((500 <= r.responseCode < 600) || (r.error.Some? && Contains(r.error.value, "timeout")))
  }

  /** 2 raised to an integer power, as a real. */
  function Pow2(e: int): (r: real)
    ensures r > 0.0
    decreases if e >= 0 then e else -e
  {
    if e == 0 then 1.0
    else if e > 0 then 2.0 * Pow2(e - 1)
    else Pow2(e + 1) / 2.0
  }

  lemma {:induction false} Pow2Step(e: int)
    ensures Pow2(e + 1) == 2.0 * Pow2(e)
    decreases if e >= 0 then e else -e
  {
    if e < -1 {
      Pow2Step(e + 1);
    }
  }

  lemma {:induction false} Pow2AtLeastSixteen(e: int)
    requires e >= 4
    ensures Pow2(e) >= 16.0
    decreases e
  {
    if e > 4 {
      Pow2AtLeastSixteen(e - 1);
    }
  }

  lemma {:induction false} Pow2AtMostEight(e: int)
    requires e <= 3
    ensures Pow2(e) <= 8.0
    decreases 3 - e
  {
    if e < 3 {
      Pow2AtMostEight(e + 1);
      Pow2Step(e);
    }
  }

  lemma Pow2Bounds(e: int)
    ensures e >= 4 ==> Pow2(e) >= 16.0
    ensures e <= 3 ==> Pow2(e) <= 8.0
  {
    if e >= 4 {
      Pow2AtLeastSixteen(e);
    } else {
      Pow2AtMostEight(e);
    }
  }

  /** The wait before the next attempt: 2^(attempt - 1) seconds, at most 10. */
  function BackoffDelay(attempt: int): (d: real)
    ensures 0.0 < d <= 10.0
    ensures attempt >= 5 ==> d == 10.0
    ensures attempt <= 4 ==> d == Pow2(attempt - 1)
  {
    Pow2Bounds(attempt - 1);
    var delay := Pow2(attempt - 1);
    if delay < 10.0 then delay else 10.0
  }

  /** Each wait is double the previous one until the cap of 10 seconds. */
  lemma BackoffDoubles(attempt: int)
    ensures BackoffDelay(attempt + 1) == if 2.0 * BackoffDelay(attempt) < 10.0 then 2.0 * BackoffDelay(attempt) else 10.0
  {
    Pow2Step(attempt - 1);
  }

  /** Later attempts never wait less. */
  lemma {:induction false} BackoffMonotone(a: int, b: int)
    requires a <= b
    ensures BackoffDelay(a) <= BackoffDelay(b)
    decreases b - a
  {
    if a < b {
      BackoffMonotone(a + 1, b);
      BackoffDoubles(a);
    }
  }

  /** The waits of the first attempts: 1, 2, 4, 8, then 10 seconds. */
  lemma BackoffSchedule()
    ensures BackoffDelay(1) == 1.0 && BackoffDelay(2) == 2.0 && BackoffDelay(3) == 4.0
    ensures BackoffDelay(4) == 8.0 && BackoffDelay(5) == 10.0
  {
  }

  /** The text "timeout" is found inside any longer error text that contains "Request timeout". */
  lemma RequestTimeoutIsRetried(r: Response)
    requires r.result == ConnectionError || r.result == ProtocolError
    requires r.error.Some? && Contains(r.error.value, "Request timeout")
    ensures ShouldRetry(r)
  {
    assert OccursAt("Request timeout", "timeout", 8);
    ContainsTransitive(r.error.value, "Request timeout", "timeout");
  }

  /** The search is case-sensitive: an error reading "Timeout" with a 4xx code completes the request. */
  lemma CapitalizedTimeoutIsFinal(r: Response)
    requires r.error == Some("Timeout") && 400 <= r.responseCode < 500
    ensures !ShouldRetry(r)
  {
    assert !OccursAt("Timeout", "timeout", 0) by {
      assert "Timeout"[0..7][0] != "timeout"[0];
    }
  }

  /** The request actually sent on an attempt: the caller's for the first, a bare one with the same URL and method after. */
  function Attempted(request: Request, attempt: nat, timeout: int): (r: Request)
    ensures r.url == request.url && r.httpMethod == request.httpMethod && r.timeout == timeout
    ensures attempt == 0 ==> r == request.(timeout := timeout)
    ensures attempt > 0 ==> r.headers == [] && r.uploadBody.None? && !r.hasDownloadHandler
  {
    if attempt == 0 then request.(timeout := timeout)
    else Request(request.url, request.httpMethod, [], None, false, timeout)
  }

  /** The text reported for a failure that is not retried: the downloaded text if readable, else the error. */
  function ReportedText(request: Request, response: Response): (text: Option<string>)
    ensures request.hasDownloadHandler && response.downloadText.Some? ==> text == response.downloadText
    ensures !request.hasDownloadHandler || response.downloadText.None? ==> text == response.error
  {
    if request.hasDownloadHandler && response.downloadText.Some? then response.downloadText else response.error
  }

  /**
   * Sends up to `maxRetryAttempts` times; `send` gives the response to the
   * request sent on each attempt (numbered from 1). Returns the requests
   * sent, the waits between them and the one completion reported, if any.
   */
  method ExecuteWithRetry(settings: SupabaseSettings, request: Request, send: (Request, int) -> Response)
    returns (sent: seq<Request>, waits: seq<real>, completion: Option<Completion>)
    ensures var maxRetries := settings.maxRetryAttempts;
      && (maxRetries <= 0 ==> sent == [] && waits == [] && completion.None?)
      && (maxRetries > 0 ==> 1 <= |sent| <= maxRetries && |waits| == |sent| - 1 && completion.Some?)
    ensures var timeout := TruncateToInt(settings.requestTimeout);
      forall k :: 0 <= k < |sent| ==> sent[k] == Attempted(request, k, timeout)
    ensures forall k :: 0 <= k < |waits| ==> waits[k] == BackoffDelay(k + 1)
    ensures forall k :: 0 <= k < |sent| - 1 ==> ShouldRetry(send(sent[k], k + 1))
    ensures completion.Some? ==>
      var last := send(sent[|sent| - 1], |sent|);
      && (completion.value.success <==> last.result == Success)
      && (ShouldRetry(last) ==> |sent| == settings.maxRetryAttempts
                                && completion.value == Completion(false, RetriesExceeded(settings.maxRetryAttempts)))
      && (!ShouldRetry(last) && last.result == Success ==> completion.value == Completion(true, Succeeded))
      && (!ShouldRetry(last) && last.result != Success ==>
            completion.value == Completion(false, Reported(ReportedText(sent[|sent| - 1], last))))
  {
    var attemptCount := 0;
    var maxRetries := settings.maxRetryAttempts;
    var timeout := TruncateToInt(settings.requestTimeout);
    var current := request;
    sent, waits, completion := [], [], None;
    while attemptCount < maxRetries
      invariant 0 <= attemptCount && |sent| == attemptCount && completion.None?
      invariant attemptCount == 0 || attemptCount < maxRetries
      invariant |waits| == attemptCount
      invariant current == Attempted(request, attemptCount, current.timeout)
      invariant forall k :: 0 <= k < |sent| ==> sent[k] == Attempted(request, k, timeout)
      invariant forall k :: 0 <= k < |waits| ==> waits[k] == BackoffDelay(k + 1)
      invariant forall k :: 0 <= k < |sent| ==> ShouldRetry(send(sent[k], k + 1))
      decreases maxRetries - attemptCount
    {
      attemptCount := attemptCount + 1;
      current := current.(timeout := timeout);
      sent := sent + [current];
      var response := send(current, attemptCount);
      if ShouldRetry(response) {
        if attemptCount < maxRetries {
          waits := waits + [BackoffDelay(attemptCount)];
          current := Request(current.url, current.httpMethod, [], None, false, current.timeout);
        } else {
          completion := Some(Completion(false, RetriesExceeded(maxRetries)));
          break;
        }
      } else {
        var success := response.result == Success;
        var message := if success then Succeeded else Reported(ReportedText(current, response));
        completion := Some(Completion(success, message));
        break;
      }
    }
  }
}
