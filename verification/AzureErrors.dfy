/** Error codes of the Azure client, their classification and the retry policy
    (azure_error.c, and execute_with_retry in azure_client.c). */
module AzureErrors {
  import opened Bytes

  datatype Err =
    | Ok | BadRequest | Server | Throttled | Auth | NotFound | Conflict | Precondition
    | Network | LeaseExpired | InvalidArg | NoMem | IOError | Alignment

  /** azure_classify_http_error. */
  function Classify(status: int, code: string): Err {
    if 200 <= status < 300 then Ok
    else if status == 429 then Throttled
    else if status in {408, 500, 502, 503, 504} then Server
    else if code in {"ServerBusy", "InternalError", "OperationTimedOut"} then Server
    else if status == 401 || status == 403 then Auth
    else if status == 404 then NotFound
    else if status == 409 then Conflict
    else if status == 412 then Precondition
    else BadRequest
  }

  predicate IsRetryable(e: Err) { e == Server || e == Throttled }

  /** Answers that a later attempt may improve on: by status, or by Azure's error code. */
  predicate Passing(status: int, code: string) {
    status in {408, 429, 500, 502, 503, 504} || code in {"ServerBusy", "InternalError", "OperationTimedOut"}
  }

  /** The class of every HTTP answer: success, worth a retry, or permanent. */
  lemma Classes(status: int, code: string)
    ensures Classify(status, code) == Ok <==> 200 <= status < 300
    ensures IsRetryable(Classify(status, code)) <==> !(200 <= status < 300) && Passing(status, code)
    ensures Classify(status, code) == Throttled <==> status == 429
    ensures !Passing(status, code) ==>
              && (Classify(status, code) == Auth <==> status in {401, 403})
              && (Classify(status, code) == NotFound <==> status == 404)
              && (Classify(status, code) == Conflict <==> status == 409)
              && (Classify(status, code) == Precondition <==> status == 412)
              && (Classify(status, code) == BadRequest <==> !(200 <= status < 300) && status !in {401, 403, 404, 409, 412})
  {}

  /** What the client learns about one request. */
  datatype Answer =
    | Http(status: int, code: string)   // an HTTP response
    | TimedOut                          // curl timeout or failed connect
    | CurlFailed                        // any other curl failure
    | Silent                            // no completion message at all
  {
    predicate Acked() { Http? && 200 <= status < 300 }

    /** Neither success nor an error status: an informational answer or a redirect. */
    predicate Hollow() { Http? && status < 400 && !Acked() }

    /** A permanent refusal with this status. */
    predicate Refused(status: int) { Http? && this.status == status && !Passing(status, code) }

    /** Worth another attempt of a single request. */
    predicate Retried() { TimedOut? || (Http? && status >= 400 && Passing(status, code)) }

    /** Worth another round of a batch. */
    predicate RoundRetried() { TimedOut? || (Http? && !Acked() && Passing(status, code)) }

    /** The batch requests test for 2xx and classify everything else. */
    function Error(): (e: Err)
      ensures Acked() <==> e == Ok && Http?
      ensures e == Ok <==> Acked() || Silent?
      ensures IsRetryable(e) <==> RoundRetried()
    {
      match this
      case Http(status, code) => Classify(status, code)
      case TimedOut => Server
      case CurlFailed => Network
      case Silent => Ok
    }

    /** execute_single classifies a status from 400 up and takes any other answer for success.
        A single request always completes, so Silent does not occur there. */
    function Outcome(): (e: Err)
      ensures e == Ok <==> Acked() || Hollow()
      ensures IsRetryable(e) <==> Retried()
      ensures e == Precondition <==> Refused(412)
    {
      match this
      case Http(status, code) => if status >= 400 then Classify(status, code) else Ok
      case TimedOut => Server
      case _ => Network
    }
  }

  const MAX_RETRIES: nat := 5
  const RETRY_BASE_MS: nat := 500
  const RETRY_MAX_MS: nat := 30000

  /** azure_compute_retry_delay; `jitter` stands for the random number (0 when none is available). */
  function RetryDelay(attempt: nat, retryAfterSecs: int, jitter: nat): (ms: nat)
    requires attempt < MAX_RETRIES
    ensures ms <= RETRY_MAX_MS
    ensures retryAfterSecs <= 0 ==> 500 * Pow2(attempt) <= ms < 500 * Pow2(attempt) + 500
    ensures 0 < retryAfterSecs <= 30 ==> ms == 1000 * retryAfterSecs
    ensures retryAfterSecs > 30 ==> ms == 30000
  {
    var delay :=
      if retryAfterSecs > 0 then
        if retryAfterSecs > 2147483647 / 1000 then RETRY_MAX_MS else retryAfterSecs * 1000
      else RETRY_BASE_MS * Pow2(attempt) + jitter % RETRY_BASE_MS;
    assert Pow2(1) == 2 && Pow2(2) == 4 && Pow2(3) == 8 && Pow2(4) == 16;
    assert attempt in {0, 1, 2, 3, 4};
    Min(delay, RETRY_MAX_MS)
  }

  function Pow2(n: nat): nat { if n == 0 then 1 else 2 * Pow2(n - 1) }

  /** One attempt of a request: what the client learns, the response body received, the
      Retry-After value (-1 when absent) and the random number drawn for the next pause. */
  datatype Attempt = Attempt(answer: Answer, body: seq<byte>, retryAfter: int, jitter: nat)

  /** The attempt at which the retry loop stops: the first that is not retryable, or the last. */
  function Decisive(attempts: seq<Attempt>, from: nat): (n: nat)
    requires from <= MAX_RETRIES < |attempts|
    ensures from <= n <= MAX_RETRIES
    ensures forall i :: from <= i < n ==> IsRetryable(attempts[i].answer.Outcome())
    ensures n < MAX_RETRIES ==> !IsRetryable(attempts[n].answer.Outcome())
    decreases MAX_RETRIES - from
  {
    if from == MAX_RETRIES || !IsRetryable(attempts[from].answer.Outcome()) then from
    else Decisive(attempts, from + 1)
  }

  /** Total pause before attempt `n`. */
  function Slept(attempts: seq<Attempt>, n: nat): nat
    requires n <= MAX_RETRIES && n <= |attempts|
  {
    if n == 0 then 0
    else Slept(attempts, n - 1) + RetryDelay(n - 1, attempts[n - 1].retryAfter, attempts[n - 1].jitter)
  }

  /** The attempts before number k, at most five, fail in ways worth a retry. */
  predicate FailsUntil(attempts: seq<Attempt>, k: nat) {
    k <= 5 && k < |attempts| && forall i :: 0 <= i < k ==> attempts[i].answer.Retried()
  }

  lemma {:induction false} DecisiveAt(attempts: seq<Attempt>, k: nat)
    requires |attempts| > MAX_RETRIES && FailsUntil(attempts, k) && (k == 5 || !attempts[k].answer.Retried())
    ensures Decisive(attempts, 0) == k
  {
    var d := Decisive(attempts, 0);
    assert k < d ==> IsRetryable(attempts[k].answer.Outcome());
  }

  /** The deciding answer comes after passing failures only. */
  lemma {:induction false} DecisiveFails(attempts: seq<Attempt>)
    requires |attempts| > MAX_RETRIES
    ensures FailsUntil(attempts, Decisive(attempts, 0))
  {
    forall i | 0 <= i < Decisive(attempts, 0) ensures attempts[i].answer.Retried() {
      assert IsRetryable(attempts[i].answer.Outcome());
    }
  }

  /** execute_with_retry: at most six attempts. The outcome and the response body are those of
      the decisive attempt alone; nothing of an earlier, failed body survives. */
  method ExecuteWithRetry(attempts: seq<Attempt>) returns (rc: Err, body: seq<byte>, made: nat, sleptMs: nat)
    requires |attempts| > MAX_RETRIES
    ensures made == Decisive(attempts, 0) + 1 <= MAX_RETRIES + 1
    ensures rc == attempts[made - 1].answer.Outcome() && body == attempts[made - 1].body
    ensures sleptMs == Slept(attempts, made - 1)
    // up to five passing failures do not matter, and the first other answer is final
    ensures forall k: nat :: FailsUntil(attempts, k) && attempts[k].answer.Acked() ==>
              rc == Ok && made == k + 1 && body == attempts[k].body
    ensures forall k: nat :: FailsUntil(attempts, k) && !attempts[k].answer.Retried() ==> made == k + 1
    ensures FailsUntil(attempts, 5) && attempts[5].answer.Retried() ==> made == 6 && (rc == Server || rc == Throttled)
  {
    forall k: nat | FailsUntil(attempts, k) && (k == 5 || !attempts[k].answer.Retried()) ensures Decisive(attempts, 0) == k {
      DecisiveAt(attempts, k);
    }
    var attempt := 0;
    sleptMs := 0;
    while true
      invariant attempt <= MAX_RETRIES && Decisive(attempts, 0) == Decisive(attempts, attempt)
      invariant sleptMs == Slept(attempts, attempt)
      decreases MAX_RETRIES - attempt
    {
      body := [];                                      // reset the response buffer
      body := body + attempts[attempt].body;
      rc := attempts[attempt].answer.Outcome();
      if !IsRetryable(rc) || attempt == MAX_RETRIES { return rc, body, attempt + 1, sleptMs; }
      sleptMs := sleptMs + RetryDelay(attempt, attempts[attempt].retryAfter, attempts[attempt].jitter);
      attempt := attempt + 1;
    }
  }

  /** The answer that decides the request. */
  function Deciding(attempts: seq<Attempt>): Answer
    requires |attempts| > MAX_RETRIES
  {
    attempts[Decisive(attempts, 0)].answer
  }

  /** An acknowledged attempt took effect; nothing is known of the others. */
  predicate AckedApplied(attempts: seq<Attempt>, applied: seq<bool>) {
    |applied| == |attempts| && forall i :: 0 <= i < |attempts| && attempts[i].answer.Acked() ==> applied[i]
  }

  /** Some attempt up to the decisive one took effect. */
  predicate TookEffect(attempts: seq<Attempt>, applied: seq<bool>)
    requires |applied| == |attempts| > MAX_RETRIES
  {
    true in applied[..Decisive(attempts, 0) + 1]
  }

  /** Does OK mean that the request took effect, whatever the network did with it? */
  ghost predicate OkMeansEffect(attempts: seq<Attempt>)
    requires |attempts| > MAX_RETRIES
  {
    forall applied: seq<bool> :: AckedApplied(attempts, applied) && Deciding(attempts).Outcome() == Ok ==> TookEffect(attempts, applied)
  }

  /** Exactly when the deciding answer is no 1xx or 3xx: those are reported as OK although nothing
      may have been done. */
  lemma OkMeansEffectIff(attempts: seq<Attempt>)
    requires |attempts| > MAX_RETRIES
    ensures OkMeansEffect(attempts) <==> !Deciding(attempts).Hollow()
  {
    var d := Decisive(attempts, 0);
    if Deciding(attempts).Hollow() {
      var applied := seq(|attempts|, i requires 0 <= i < |attempts| => attempts[i].answer.Acked());
      assert AckedApplied(attempts, applied);
      forall i | 0 <= i <= d ensures !applied[i] {
        if i < d { assert IsRetryable(attempts[i].answer.Outcome()); }
      }
      assert !TookEffect(attempts, applied);
    } else {
      forall applied: seq<bool> | AckedApplied(attempts, applied) && Deciding(attempts).Outcome() == Ok
        ensures TookEffect(attempts, applied)
      {
        assert applied[..d + 1][d];
      }
    }
  }

  /** One such answer: 304 is OK at the first attempt, with nothing done. */
  lemma NotModifiedIsOk()
    ensures var attempts := seq(MAX_RETRIES + 1, _ => Attempt(Http(304, ""), [], -1, 0));
      && Decisive(attempts, 0) == 0 && Deciding(attempts).Outcome() == Ok && !OkMeansEffect(attempts)
  {
    OkMeansEffectIff(seq(MAX_RETRIES + 1, _ => Attempt(Http(304, ""), [], -1, 0)));
  }

  /** The whole retry loop pauses at most 150 s, and at most 17995 ms when the service sends no
      Retry-After; both bounds are reached. */
  lemma {:induction false} TotalPause(attempts: seq<Attempt>, n: nat)
    requires n <= MAX_RETRIES <= |attempts|
    ensures Slept(attempts, n) <= n * RETRY_MAX_MS <= 150000
    ensures (forall i :: 0 <= i < n ==> attempts[i].retryAfter <= 0)
            ==> Slept(attempts, n) <= RETRY_BASE_MS * (Pow2(n) - 1) + n * (RETRY_BASE_MS - 1) <= 17995
  {
    if n > 0 { TotalPause(attempts, n - 1); }
    assert Pow2(1) == 2 && Pow2(2) == 4 && Pow2(3) == 8 && Pow2(4) == 16 && Pow2(5) == 32;
    assert n in {0, 1, 2, 3, 4, 5};
  }

  lemma PauseBoundsAreReached()
    ensures Slept(seq(6, _ => Attempt(TimedOut, [], 30, 0)), 5) == 150000
    ensures Slept(seq(6, _ => Attempt(TimedOut, [], -1, 499)), 5) == 17995
  {
    var a, b := seq(6, _ => Attempt(TimedOut, [], 30, 0)), seq(6, _ => Attempt(TimedOut, [], -1, 499));
    assert Pow2(1) == 2 && Pow2(2) == 4 && Pow2(3) == 8 && Pow2(4) == 16;
    assert RetryDelay(0, 30, 0) == RetryDelay(1, 30, 0) == RetryDelay(2, 30, 0) == RetryDelay(3, 30, 0) == RetryDelay(4, 30, 0) == 30000;
    assert Slept(a, 1) == 30000;
    assert Slept(a, 2) == Slept(a, 1) + RetryDelay(1, 30, 0) == 60000;
    assert Slept(a, 3) == Slept(a, 2) + RetryDelay(2, 30, 0) == 90000;
    assert Slept(a, 4) == Slept(a, 3) + RetryDelay(3, 30, 0) == 120000;
    assert RetryDelay(0, -1, 499) == 999 && RetryDelay(1, -1, 499) == 1499 && RetryDelay(2, -1, 499) == 2499;
    assert RetryDelay(3, -1, 499) == 4499 && RetryDelay(4, -1, 499) == 8499;
    assert Slept(b, 1) == 999;
    assert Slept(b, 2) == Slept(b, 1) + RetryDelay(1, -1, 499) == 2498;
    assert Slept(b, 3) == Slept(b, 2) + RetryDelay(2, -1, 499) == 4997;
    assert Slept(b, 4) == Slept(b, 3) + RetryDelay(3, -1, 499) == 9496;
  }
}
