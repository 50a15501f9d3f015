/** The retry policy of a consumer: how often, and after what delay, a message is redelivered.
    Durations are in seconds. */
module RetryPolicy {
  import opened Optional

  datatype Policy = Policy(maxRetries: int, backoff: seq<int>, ackWait: int)

  const DEFAULT_POLICY: Policy := Policy(5, [1, 5, 30, 120, 600], 300)
  const DUPLICATE_WINDOW: int := 15 * 60

  function BackoffDurations(p: Option<Policy>): (b: seq<int>)
    ensures |b| > 0
  {
    if p.None? || |p.value.backoff| == 0 then DEFAULT_POLICY.backoff else p.value.backoff
  }

  /** The delay before the delivery after the given one: the backoff entry, clamped at both ends. */
  function DelayForAttempt(p: Option<Policy>, deliveryCount: int): int {
    var backoff := BackoffDurations(p);
    var index := if deliveryCount - 1 < 0 then 0 else deliveryCount - 1;
    backoff[if index >= |backoff| then |backoff| - 1 else index]
  }

  /** MaxDeliver for the server: the retries plus the first delivery. */
  function MaxDeliver(p: Option<Policy>): (n: int)
    ensures n > 1
  {
    if p.None? || p.value.maxRetries <= 0 then 6 else p.value.maxRetries + 1
  }

  function AckWait(p: Option<Policy>): (seconds: int)
    ensures seconds > 0
  {
    if p.None? || p.value.ackWait <= 0 then 30 else p.value.ackWait
  }

  predicate ShouldRetry(p: Option<Policy>, deliveryCount: int) {
    if p.None? then deliveryCount <= 5 else deliveryCount <= p.value.maxRetries
  }

  /** Client and server agree on the last delivery exactly when retries are configured:
      with MaxRetries <= 0 the client gives up at once while the server allows six deliveries. */
  lemma RetryMatchesMaxDeliverIff(p: Option<Policy>)
    ensures (forall d :: d >= 1 ==> (ShouldRetry(p, d) <==> d < MaxDeliver(p)))
            <==> (p.None? || p.value.maxRetries >= 1)
  {
    if p.Some? && p.value.maxRetries <= 0 {
      assert !ShouldRetry(p, 1) && 1 < MaxDeliver(p);
    }
  }

  /** The delay after delivery d is entry d-1 of the configured backoff, the last entry for any later
      delivery; without a configured one the backoff is 1, 5, 30, 120 and 600 seconds. */
  lemma DelayIsBackoffEntry(p: Option<Policy>, d: int)
    ensures
      var b := if p.Some? && p.value.backoff != [] then p.value.backoff else [1, 5, 30, 120, 600];
      && (1 <= d <= |b| ==> DelayForAttempt(p, d) == b[d - 1])
      && (d > |b| ==> DelayForAttempt(p, d) == b[|b| - 1])
      && (d < 1 ==> DelayForAttempt(p, d) == b[0])
  {
  }

  /** What stands in for a missing policy, or for one without retries or ack wait. */
  lemma PolicyDefaults(p: Policy, d: int)
    ensures MaxDeliver(None) == 6 && AckWait(None) == 30 && (ShouldRetry(None, d) <==> d <= 5)
    ensures MaxDeliver(Some(p)) == if p.maxRetries >= 1 then p.maxRetries + 1 else 6
    ensures AckWait(Some(p)) == if p.ackWait >= 1 then p.ackWait else 30
    ensures ShouldRetry(Some(p), d) <==> d <= p.maxRetries
  {
  }

  /** The delays of deliveries first..end-1 added up. */
  function TotalDelay(p: Option<Policy>, first: int, end: int): int
    decreases end - first
  {
    if first >= end then 0 else DelayForAttempt(p, first) + TotalDelay(p, first + 1, end)
  }

  lemma {:induction false} TotalDelaySnoc(p: Option<Policy>, first: int, end: int)
    requires first <= end
    ensures TotalDelay(p, first, end + 1) == TotalDelay(p, first, end) + DelayForAttempt(p, end)
    decreases end - first
  {
    if first == end {
      assert TotalDelay(p, end + 1, end + 1) == 0;
    } else {
      TotalDelaySnoc(p, first + 1, end);
    }
  }

  /** Under the default policy the whole schedule takes 756 seconds,
      inside the fifteen-minute duplicate window. */
  lemma DefaultScheduleFitsWindow()
    ensures TotalDelay(Some(DEFAULT_POLICY), 1, MaxDeliver(Some(DEFAULT_POLICY))) == 756 < DUPLICATE_WINDOW
  {
    var p := Some(DEFAULT_POLICY);
    assert TotalDelay(p, 5, 6) == 600;
    assert TotalDelay(p, 3, 6) == 30 + (120 + TotalDelay(p, 5, 6));
    assert TotalDelay(p, 1, 6) == 1 + (5 + TotalDelay(p, 3, 6));
  }
}
