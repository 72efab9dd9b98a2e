/**
 Bounded retry of one gateway request, and bounded waiting for a batch. Delays
 are real numbers; what the network and the random source do are inputs.
 */
module RequestRetry {
  import opened Bytes
  import opened Sequences

  // ----- configuration and what can happen -----

  type Delay = x: real | 0.0 <= x witness 0.0
  type Fraction = x: real | 0.0 <= x <= 1.0 witness 0.0

  /** What the client's constructor accepts. */
  datatype Policy = Policy(maxAttempts: nat, baseDelay: Delay, maxDelay: Delay) {
    predicate Valid() { maxAttempts > 0 && baseDelay <= maxDelay }
  }

  datatype Fault = Plain | Tls

  /**
   What one attempt meets: a response, whose release may fail in turn, or a
   transport failure before any response.
   */
  datatype Answer =
    | Response(status: int, retryAfter: Option<Delay>, releaseFault: Option<Fault>)
    | Lost(fault: Fault)

  datatype Event = Sent(attempt: nat) | Slept(delay: real) | HandedOff(status: int) | Failed

  const RETRYABLE_STATUSES: set<int> := {408, 425, 429, 502, 503, 504}

  // ----- delays -----

  function Doubled(x: real, times: nat): real {
    if times == 0 then x else 2.0 * Doubled(x, times - 1)
  }

  function Min(x: real, y: real): real {
    if x <= y then x else y
  }

  /** The backoff ceiling after a failed attempt, counted from one. */
  function Ceiling(p: Policy, failedAttempt: nat): real
    requires failedAttempt > 0
  {
    Min(Doubled(p.baseDelay, failedAttempt - 1), p.maxDelay)
  }

  /** Equal jitter: somewhere in the upper half below the ceiling. */
  function Jittered(ceiling: real, jitter: Fraction): real {
    if ceiling <= 0.0 then 0.0 else ceiling / 2.0 + Part(jitter, ceiling / 2.0)
  }

  function Part(fraction: Fraction, x: real): real {
    fraction * x
  }

  function Fallback(p: Policy, failedAttempt: nat, jitter: Fraction): real
    requires failedAttempt > 0
  {
    Jittered(Ceiling(p, failedAttempt), jitter)
  }

  lemma ProductIsNonNegative(x: real, y: real)
    requires x >= 0.0 && y >= 0.0
    ensures x * y >= 0.0
  {
  }

  lemma PartOfHalf(jitter: Fraction, half: real)
    requires half >= 0.0
    ensures 0.0 <= Part(jitter, half) <= half
  {
    var rest: real := 1.0 - jitter;
    ProductIsNonNegative(jitter, half);
    ProductIsNonNegative(rest, half);
    assert jitter * half + rest * half == (jitter + rest) * half;
  }

  lemma JitteredIsInUpperHalf(ceiling: Delay, jitter: Fraction)
    ensures 0.0 <= ceiling / 2.0 <= Jittered(ceiling, jitter) <= ceiling
  {
    hide Part;
    PartOfHalf(jitter, ceiling / 2.0);
  }

  lemma {:induction false} DoubledIsNonNegative(x: Delay, times: nat)
    ensures Doubled(x, times) >= 0.0
  {
    if times > 0 { DoubledIsNonNegative(x, times - 1); }
  }

  /** The ceiling starts at the base delay and doubles after each failure until it reaches the maximum. */
  lemma CeilingDoubles(p: Policy, k: nat)
    requires p.Valid() && k > 0
    ensures Ceiling(p, 1) == p.baseDelay
    ensures 0.0 <= Ceiling(p, k) <= p.maxDelay
    ensures Ceiling(p, k + 1) == Min(2.0 * Ceiling(p, k), p.maxDelay)
  {
    DoubledIsNonNegative(p.baseDelay, k - 1);
    assert Doubled(p.baseDelay, k) == 2.0 * Doubled(p.baseDelay, k - 1);
    assert Doubled(p.baseDelay, 0) == p.baseDelay;
  }

  /** Every jittered delay lies in the upper half below its ceiling. */
  lemma FallbackIsEqualJitter(p: Policy, k: nat, jitter: Fraction)
    requires p.Valid() && k > 0
    ensures 0.0 <= Ceiling(p, k) / 2.0 <= Fallback(p, k, jitter) <= Ceiling(p, k) <= p.maxDelay
  {
    CeilingDoubles(p, k);
    hide Ceiling, Jittered;
    JitteredIsInUpperHalf(Ceiling(p, k), jitter);
  }

  // ----- when a request goes on -----

  predicate Acceptable(p: Policy, guidance: Option<Delay>) {
    guidance.Some? ==> guidance.value <= p.maxDelay
  }

  /** The attempt is followed by another one. */
  predicate GoesOn(p: Policy, get: bool, attempt: nat, a: Answer) {
    && get && attempt < p.maxAttempts
    && match a
       case Response(status, guidance, releaseFault) =>
         status in RETRYABLE_STATUSES && Acceptable(p, guidance) && releaseFault != Some(Tls)
       case Lost(fault) => fault != Tls
  }

  /** A retryable response that is not passed on, but whose release breaks the channel for good. */
  predicate BreaksOnRelease(p: Policy, get: bool, attempt: nat, a: Answer) {
    && get && attempt < p.maxAttempts && a.Response? && a.status in RETRYABLE_STATUSES
    && Acceptable(p, a.retryAfter) && a.releaseFault == Some(Tls)
  }

  /** How a request that does not go on ends: with the response in the caller's hands, or without one. */
  function Ending(p: Policy, get: bool, attempt: nat, a: Answer): Event {
    if a.Response? && !BreaksOnRelease(p, get, attempt, a) then HandedOff(a.status) else Failed
  }

  /** A server's guidance is obeyed when its response was released cleanly; otherwise the backoff decides. */
  predicate RightPause(p: Policy, attempt: nat, a: Answer, delay: real)
    requires attempt > 0
  {
    if a.Response? && a.releaseFault.None? && a.retryAfter.Some? then delay == a.retryAfter.value
    else Ceiling(p, attempt) / 2.0 <= delay <= Ceiling(p, attempt)
  }

  /** The world of one request: the answer to each attempt and the random draws. */
  datatype World = World(answers: nat -> Answer, jitter: nat -> Fraction)

  function Pause(p: Policy, w: World, attempt: nat): real
    requires attempt > 0
  {
    var a := w.answers(attempt);
    if a.Response? && a.releaseFault.None? && a.retryAfter.Some? then a.retryAfter.value
    else Fallback(p, attempt, w.jitter(attempt))
  }

  lemma PauseIsRight(p: Policy, get: bool, w: World, k: nat)
    requires p.Valid() && k > 0
    ensures RightPause(p, k, w.answers(k), Pause(p, w, k))
    ensures GoesOn(p, get, k, w.answers(k)) ==> 0.0 <= Pause(p, w, k) <= p.maxDelay
  {
    FallbackIsEqualJitter(p, k, w.jitter(k));
  }

  // ----- one request -----

  predicate SentThenSlept(p: Policy, get: bool, w: World, log: seq<Event>, k: nat)
    requires 0 < k && 2 * k <= |log|
  {
    && GoesOn(p, get, k, w.answers(k))
    && log[2 * k - 2] == Sent(k)
    && log[2 * k - 1] == Slept(Pause(p, w, k))
  }

  /** The log so far after some attempts, each of which goes on. */
  predicate RetriedSoFar(p: Policy, get: bool, w: World, log: seq<Event>, retries: nat) {
    |log| >= 2 * retries && forall k :: 0 < k <= retries ==> SentThenSlept(p, get, w, log, k)
  }

  /** A whole request: some attempts that go on, and one that ends it. */
  ghost predicate IsRequest(p: Policy, get: bool, w: World, log: seq<Event>, attempts: nat) {
    && attempts > 0 && |log| == 2 * attempts
    && RetriedSoFar(p, get, w, log, attempts - 1)
    && !GoesOn(p, get, attempts, w.answers(attempts))
    && log[2 * attempts - 2] == Sent(attempts)
    && log[2 * attempts - 1] == Ending(p, get, attempts, w.answers(attempts))
  }

  lemma RetriedStays(p: Policy, get: bool, w: World, log: seq<Event>, log': seq<Event>, retries: nat)
    requires RetriedSoFar(p, get, w, log, retries) && log <= log'
    ensures RetriedSoFar(p, get, w, log', retries)
  {
    forall k | 0 < k <= retries
      ensures SentThenSlept(p, get, w, log', k)
    {
      assert SentThenSlept(p, get, w, log, k);
    }
  }

  /** The delay after a retryable response, or none when its guidance is excessive. */
  method DelayForResponse(p: Policy, guidance: Option<Delay>, attempt: nat,
                          jitter: Fraction) returns (delay: Option<real>)
    requires attempt > 0
    ensures delay.None? <==> !Acceptable(p, guidance)
    ensures delay.Some? ==> delay.value == if guidance.Some? then guidance.value else Fallback(p, attempt, jitter)
  {
    if guidance.Some? {
      return if guidance.value > p.maxDelay then None else Some(guidance.value);
    }
    delay := Some(Fallback(p, attempt, jitter));
  }

  method Request(p: Policy, get: bool, w: World) returns (log: seq<Event>, attempts: nat)
    requires p.Valid()
    ensures IsRequest(p, get, w, log, attempts)
    ensures forall k :: 0 < k <= attempts ==> (k == attempts <==> IsLast(p, get, k, w.answers(k)))
    ensures get && w.answers(attempts) == Lost(Plain) ==> attempts == p.maxAttempts
  {
    hide IsLast;
    log, attempts := [], 1;
    while true
      invariant attempts > 0 && |log| == 2 * (attempts - 1)
      invariant RetriedSoFar(p, get, w, log, attempts - 1)
      decreases p.maxAttempts - attempts
    {
      ghost var retried := log;
      log := log + [Sent(attempts)];
      var answer := w.answers(attempts);
      var delay: Option<real> := None;
      if answer.Response? {
        if get && attempts < p.maxAttempts && answer.status in RETRYABLE_STATUSES {
          delay := DelayForResponse(p, answer.retryAfter, attempts, w.jitter(attempts));
        }
        if delay.None? {
          log := log + [HandedOff(answer.status)];
          RetriedStays(p, get, w, retried, log, attempts - 1);
          RetriesExactly(p, get, w, log, attempts);
          return;
        }
      }
      var fault := if answer.Response? then answer.releaseFault else Some(answer.fault);
      if fault.Some? {
        if !get || attempts >= p.maxAttempts || fault.value == Tls {
          log := log + [Failed];
          RetriedStays(p, get, w, retried, log, attempts - 1);
          RetriesExactly(p, get, w, log, attempts);
          return;
        }
        delay := Some(Fallback(p, attempts, w.jitter(attempts)));
      }
      log := log + [Slept(delay.value)];
      RetriedStays(p, get, w, retried, log, attempts - 1);
      attempts := attempts + 1;
    }
  }

  function TotalSleep(log: seq<Event>): real {
    if log == [] then 0.0
    else TotalSleep(log[..|log| - 1]) + if log[|log| - 1].Slept? then log[|log| - 1].delay else 0.0
  }

  lemma TotalSleepSnoc(log: seq<Event>, e: Event)
    ensures TotalSleep(log + [e]) == TotalSleep(log) + if e.Slept? then e.delay else 0.0
  {
    SnocInit(log, e);
  }

  function Times(k: nat, x: real): real {
    if k == 0 then 0.0 else Times(k - 1, x) + x
  }

  lemma {:induction false} TimesMultiplies(k: nat, x: real)
    ensures Times(k, x) == k as real * x
  {
    if k > 0 {
      TimesMultiplies(k - 1, x);
      var before := (k - 1) as real;
      assert k as real == before + 1.0;
      assert (before + 1.0) * x == before * x + x;
    }
  }

  lemma {:induction false} RetriesSleepBounded(p: Policy, get: bool, w: World, log: seq<Event>, retries: nat)
    requires p.Valid() && RetriedSoFar(p, get, w, log, retries)
    ensures 0.0 <= TotalSleep(log[..2 * retries]) <= Times(retries, p.maxDelay)
  {
    if retries > 0 {
      RetriesSleepBounded(p, get, w, log, retries - 1);
      hide TotalSleep, Pause, GoesOn, RightPause;
      assert SentThenSlept(p, get, w, log, retries);
      PauseIsRight(p, get, w, retries);
      var before, sent, slept := log[..2 * retries - 2], Sent(retries), Slept(Pause(p, w, retries));
      TotalSleepSnoc(before, sent);
      TotalSleepSnoc(before + [sent], slept);
      assert log[..2 * retries] == before + [sent] + [slept];
    }
  }

  /** The event at any place before the last attempt, and what is known of it. */
  lemma EventAt(p: Policy, get: bool, w: World, log: seq<Event>, retries: nat, i: nat)
    requires p.Valid() && RetriedSoFar(p, get, w, log, retries) && i < 2 * retries
    ensures log[i] == if i % 2 == 0 then Sent(i / 2 + 1) else Slept(Pause(p, w, i / 2 + 1))
    ensures log[i].Slept? ==> RightSleep(p, w, i, log[i].delay)
  {
    hide Pause, RightPause;
    assert SentThenSlept(p, get, w, log, i / 2 + 1);
    PauseIsRight(p, get, w, i / 2 + 1);
  }

  /** The sleep at a place of a log follows its attempt, is the right one for its answer, and is bounded. */
  predicate RightSleep(p: Policy, w: World, i: nat, delay: real) {
    i % 2 == 1 && 0.0 <= delay <= p.maxDelay && RightPause(p, i / 2 + 1, w.answers(i / 2 + 1), delay)
  }

  /** The one send of an attempt: attempts are numbered in order, so none is sent twice. */
  predicate RightSend(log: seq<Event>, attempts: nat, i: nat)
    requires i < |log|
  {
    log[i].Sent? ==> i == 2 * log[i].attempt - 2 && log[i].attempt <= attempts
  }

  /**
   Every request: a GET sends at most the configured number of times and anything
   else once; each pause is the guided or jittered one and at most the maximum;
   a response is handed off at most once, as the very last event, so nothing is
   sent after it.
   */
  lemma RequestIsBounded(p: Policy, get: bool, w: World, log: seq<Event>, attempts: nat)
    requires p.Valid() && IsRequest(p, get, w, log, attempts)
    ensures attempts <= (if get then p.maxAttempts else 1)
    ensures forall i :: 0 <= i < |log| - 1 ==> !log[i].HandedOff? && !log[i].Failed?
    ensures forall i :: 0 <= i < |log| ==> RightSend(log, attempts, i)
    ensures forall i :: 0 <= i < |log| && log[i].Slept? ==> RightSleep(p, w, i, log[i].delay)
  {
    hide Pause, RightSleep;
    if attempts > 1 { assert SentThenSlept(p, get, w, log, attempts - 1); }
    forall i | 0 <= i < |log| - 2
      ensures !log[i].HandedOff? && !log[i].Failed? && RightSend(log, attempts, i)
      ensures log[i].Slept? ==> RightSleep(p, w, i, log[i].delay)
    {
      EventAt(p, get, w, log, attempts - 1, i);
    }
  }

  lemma SleeplessEnd(log: seq<Event>)
    requires |log| >= 2 && !log[|log| - 2].Slept? && !log[|log| - 1].Slept?
    ensures TotalSleep(log) == TotalSleep(log[..|log| - 2])
  {
    assert log[..|log| - 1][..|log| - 2] == log[..|log| - 2];
  }

  /** The sleeps of a request add up to at most the maximum delay for each retry. */
  lemma SleepIsBounded(p: Policy, get: bool, w: World, log: seq<Event>, attempts: nat)
    requires p.Valid() && IsRequest(p, get, w, log, attempts)
    ensures TotalSleep(log) <= (attempts - 1) as real * p.maxDelay
  {
    hide TotalSleep;
    RetriesSleepBounded(p, get, w, log, attempts - 1);
    SleeplessEnd(log);
    TimesMultiplies(attempts - 1, p.maxDelay);
  }

  /** A response that is not even considered for a retry, or whose guidance is excessive. */
  predicate HandedOffAtOnce(p: Policy, get: bool, attempt: nat, a: Answer)
    requires a.Response?
  {
    || !get || attempt >= p.maxAttempts || a.status !in RETRYABLE_STATUSES
    || !Acceptable(p, a.retryAfter)
  }

  /**
   A response reaches the caller exactly when the last attempt met one that was
   not refused on release: an excessive guidance, a final status and the last
   allowed attempt all hand the response over, whatever its status.
   */
  lemma HandedOffExactly(p: Policy, get: bool, w: World, log: seq<Event>, attempts: nat)
    requires p.Valid() && IsRequest(p, get, w, log, attempts)
    ensures var a, last := w.answers(attempts), log[|log| - 1];
            && (last.HandedOff? <==> a.Response? && !BreaksOnRelease(p, get, attempts, a))
            && last == (if last.HandedOff? then HandedOff(a.status) else Failed)
            && (a.Response? && HandedOffAtOnce(p, get, attempts, a) ==> last.HandedOff?)
    ensures forall k :: 0 < k < attempts && w.answers(k).Response? ==> w.answers(k).status in RETRYABLE_STATUSES
  {
    forall k | 0 < k < attempts
      ensures GoesOn(p, get, k, w.answers(k))
    {
      assert SentThenSlept(p, get, w, log, k);
    }
  }

  /** An attempt after which nothing more is sent, whatever else happens. */
  predicate IsLast(p: Policy, get: bool, k: nat, a: Answer) {
    || k >= p.maxAttempts || !get
    || match a
       case Lost(fault) => fault == Tls
       case Response(status, guidance, releaseFault) =>
         || (status != 408 && status != 425 && status != 429 && status != 502 && status != 503 && status != 504)
         || (guidance.Some? && guidance.value > p.maxDelay)
         || releaseFault == Some(Tls)
  }

  /** The answer alone settles that the caller gets this response, however its release would have gone. */
  predicate IsFinal(p: Policy, get: bool, k: nat, a: Answer) {
    && a.Response?
    && (a.releaseFault == Some(Tls) ==> IsLast(p, get, k, a.(releaseFault := None)))
  }

  /**
   What a request does, from its configuration and its answers alone. Every retry the
   policy allows is made: it ends with the first attempt that is the last one allowed,
   is no GET, meets a TLS fault, or gets a response of another status than 408, 425,
   429, 502, 503 and 504 or with guidance above the maximum delay.
   */
  lemma RetriesExactly(p: Policy, get: bool, w: World, log: seq<Event>, attempts: nat)
    requires p.Valid() && IsRequest(p, get, w, log, attempts)
    ensures forall k :: 0 < k <= attempts ==> (k == attempts <==> IsLast(p, get, k, w.answers(k)))
    ensures get && w.answers(attempts) == Lost(Plain) ==> attempts == p.maxAttempts
    ensures log[2 * attempts - 1]
            == if IsFinal(p, get, attempts, w.answers(attempts)) then HandedOff(w.answers(attempts).status) else Failed
    ensures forall k :: 0 < k < attempts ==> log[2 * k - 2] == Sent(k) && PausedAfter(p, w, k, log[2 * k - 1])
  {
    hide Pause, PausedAfter;
    forall k | 0 < k < attempts
      ensures !IsLast(p, get, k, w.answers(k)) && log[2 * k - 2] == Sent(k) && PausedAfter(p, w, k, log[2 * k - 1])
    {
      assert SentThenSlept(p, get, w, log, k);
      PausesAsTold(p, w, k);
    }
    if get && attempts > 1 {
      assert SentThenSlept(p, get, w, log, attempts - 1);
    }
  }

  /** The sleep after a failed attempt: as guided if the response was released cleanly, else from the jitter. */
  predicate PausedAfter(p: Policy, w: World, k: nat, e: Event)
    requires k > 0
  {
    var a, half := w.answers(k), Ceiling(p, k) / 2.0;
    e == Slept(if a.Response? && a.releaseFault.None? && a.retryAfter.Some? then a.retryAfter.value
               else half + w.jitter(k) * half)
  }

  lemma PausesAsTold(p: Policy, w: World, k: nat)
    requires p.Valid() && k > 0
    ensures PausedAfter(p, w, k, Slept(Pause(p, w, k)))
  {
    CeilingDoubles(p, k);
    hide Ceiling;
  }

  /** Requests under two limits make the same sends and pauses up to the smaller one's last attempt. */
  lemma RaisingTheLimitOnlyExtends(p: Policy, q: Policy, w: World, get: bool, log: seq<Event>, log': seq<Event>,
                                   n: nat, n': nat)
    requires p.Valid() && q == p.(maxAttempts := q.maxAttempts) && p.maxAttempts <= q.maxAttempts
    requires IsRequest(p, get, w, log, n) && IsRequest(q, get, w, log', n')
    ensures n <= n' && log[..2 * n - 1] == log'[..2 * n - 1]
    ensures n < p.maxAttempts ==> log == log'
  {
    assert n' < n ==> SentThenSlept(p, get, w, log, n');
    forall k | 0 < k < n
      ensures SentThenSlept(p, get, w, log, k) && SentThenSlept(q, get, w, log', k)
    {
    }
    if n < n' {
      assert SentThenSlept(q, get, w, log', n);
    }
    forall i | 0 <= i < 2 * n - 1
      ensures log[i] == log'[i]
    {
      if i < 2 * n - 2 {
        assert SentThenSlept(p, get, w, log, i / 2 + 1) && SentThenSlept(q, get, w, log', i / 2 + 1);
      }
    }
    if n < p.maxAttempts {
      assert GoesOn(q, get, n, w.answers(n)) == GoesOn(p, get, n, w.answers(n));
      assert n' == n;
      assert log[2 * n - 1] == log'[2 * n - 1];
    }
  }

  // ----- waiting for a batch -----

  /** One status request: whether the batch was terminal, and the clock right after it. */
  datatype Poll = Poll(complete: bool, at: real)

  /** What waiting came to on the polls at hand; a finite history may leave it waiting. */
  datatype Waited = Completed(polls: nat) | TimedOut(polls: nat) | StillWaiting

  predicate Stops(poll: Poll, deadline: real) {
    poll.complete || poll.at >= deadline
  }

  method WaitForBatch(start: real, timeout: Delay, interval: Delay, history: seq<Poll>) returns (waited: Waited,
                                                                                                 sleeps: seq<real>)
    requires timeout > 0.0 && interval > 0.0
    ensures IsWait(start + timeout, interval, history, waited, sleeps)
    ensures forall k :: 0 <= k < |sleeps| ==>
              && !history[k].complete && history[k].at < start + timeout
              && sleeps[k] <= interval && sleeps[k] <= start + timeout - history[k].at
              && (sleeps[k] == interval || sleeps[k] == start + timeout - history[k].at)
  {
    var deadline := start + timeout;
    sleeps := [];
    while |sleeps| < |history|
      invariant |sleeps| <= |history|
      invariant SleptBetween(deadline, interval, history, sleeps)
    {
      var poll := history[|sleeps|];
      if poll.complete {
        return Completed(|sleeps| + 1), sleeps;
      }
      var remaining := deadline - poll.at;
      if remaining <= 0.0 {
        return TimedOut(|sleeps| + 1), sleeps;
      }
      sleeps := sleeps + [Min(interval, remaining)];
    }
    waited := StillWaiting;
  }

  predicate SleptBetween(deadline: real, interval: real, history: seq<Poll>, sleeps: seq<real>) {
    && |sleeps| <= |history|
    && forall k :: 0 <= k < |sleeps| ==>
         !Stops(history[k], deadline) && sleeps[k] == Min(interval, deadline - history[k].at)
  }

  /** Waiting ends with the first poll that is terminal or late, and sleeps after each earlier one. */
  predicate IsWait(deadline: real, interval: real, history: seq<Poll>, waited: Waited, sleeps: seq<real>) {
    && SleptBetween(deadline, interval, history, sleeps)
    && match waited
       case Completed(n) => |sleeps| == n - 1 < |history| && history[n - 1].complete
       case TimedOut(n) => |sleeps| == n - 1 < |history| && !history[n - 1].complete && history[n - 1].at >= deadline
       case StillWaiting => |sleeps| == |history|
  }

  /** The clock advances over each sleep by at least the time asked for, and never runs back. */
  predicate ClockAdvances(start: real, deadline: real, interval: real, history: seq<Poll>) {
    && (|history| > 0 ==> history[0].at >= start)
    && forall k {:trigger history[k]} :: 0 < k < |history| ==>
         history[k].at >= history[k - 1].at
         + (if history[k - 1].at < deadline then Min(interval, deadline - history[k - 1].at) else 0.0)
  }

  function RoundedUp(x: real): int {
    -((-x).Floor)
  }

  function Sum(xs: seq<real>): real {
    if xs == [] then 0.0 else Sum(xs[..|xs| - 1]) + xs[|xs| - 1]
  }

  lemma {:induction false} ClockAfterPolls(start: real, deadline: real, interval: Delay, history: seq<Poll>, k: nat)
    requires ClockAdvances(start, deadline, interval, history) && k < |history|
    ensures history[k].at >= deadline || history[k].at >= start + Times(k, interval)
  {
    if k > 0 {
      ClockAfterPolls(start, deadline, interval, history, k - 1);
    }
  }

  lemma {:induction false} SleepsFitTheClock(start: real, deadline: real, interval: Delay, history: seq<Poll>,
                                             sleeps: seq<real>, k: nat)
    requires ClockAdvances(start, deadline, interval, history) && SleptBetween(deadline, interval, history, sleeps)
    requires k <= |sleeps| && k < |history|
    ensures start + Sum(sleeps[..k]) <= history[k].at
  {
    if k > 0 {
      SleepsFitTheClock(start, deadline, interval, history, sleeps, k - 1);
      assert sleeps[..k][..k - 1] == sleeps[..k - 1];
      assert !Stops(history[k - 1], deadline);
    }
  }

  /**
   If sleeping advances the clock as asked, a wait makes at most the timeout over
   the interval, rounded up, plus one polls, is decided by any history that long,
   and asks for no more sleep than the timeout.
   */
  lemma WaitingIsBounded(start: real, timeout: Delay, interval: Delay, history: seq<Poll>, waited: Waited,
                         sleeps: seq<real>)
    requires timeout > 0.0 && interval > 0.0 && ClockAdvances(start, start + timeout, interval, history)
    requires IsWait(start + timeout, interval, history, waited, sleeps)
    ensures !waited.StillWaiting? ==> 1 <= waited.polls <= RoundedUp(timeout / interval) + 1
    ensures |history| > RoundedUp(timeout / interval) ==> !waited.StillWaiting?
    ensures Sum(sleeps) <= timeout
  {
    hide RoundedUp, Sum, ClockAdvances, SleptBetween;
    FewSleeps(start, timeout, interval, history, sleeps);
    TotalOfSleeps(start, timeout, interval, history, sleeps);
  }

  lemma FewSleeps(start: real, timeout: Delay, interval: Delay, history: seq<Poll>, sleeps: seq<real>)
    requires timeout > 0.0 && interval > 0.0 && ClockAdvances(start, start + timeout, interval, history)
    requires SleptBetween(start + timeout, interval, history, sleeps)
    ensures |sleeps| <= RoundedUp(timeout / interval) && |sleeps| <= |history|
  {
    hide RoundedUp;
    var n := |sleeps|;
    if n > 0 {
      assert !Stops(history[n - 1], start + timeout);
      ClockAfterPolls(start, start + timeout, interval, history, n - 1);
      EarlyPolls(n - 1, timeout, interval);
    } else {
      EarlyPolls(0, timeout, interval);
    }
  }

  lemma SumLast(xs: seq<real>)
    ensures if xs == [] then Sum(xs) == 0.0 else Sum(xs) == Sum(xs[..|xs| - 1]) + xs[|xs| - 1]
  {
  }

  lemma TotalOfSleeps(start: real, timeout: Delay, interval: Delay, history: seq<Poll>, sleeps: seq<real>)
    requires interval > 0.0 && ClockAdvances(start, start + timeout, interval, history)
    requires SleptBetween(start + timeout, interval, history, sleeps)
    ensures Sum(sleeps) <= timeout
  {
    var n := |sleeps|;
    SumLast(sleeps);
    if n > 0 {
      hide ClockAdvances, Sum;
      SleepsFitTheClock(start, start + timeout, interval, history, sleeps, n - 1);
      assert sleeps[n - 1] <= start + timeout - history[n - 1].at;
    }
  }

  lemma EarlyPolls(k: nat, timeout: Delay, interval: Delay)
    requires interval > 0.0 && Times(k, interval) < timeout
    ensures k < RoundedUp(timeout / interval)
  {
    TimesMultiplies(k, interval);
    QuotientExceeds(k as real, timeout, interval);
  }

  lemma QuotientExceeds(x: real, y: real, z: real)
    requires z > 0.0 && x * z < y
    ensures x < y / z
  {
    var q := y / z;
    assert q * z == y;
    assert x >= q ==> (x - q) * z >= 0.0;
  }

  /** Polls at every interval until the deadline, and one more at it. */
  function PunctualPolls(start: real, timeout: Delay, interval: Delay, n: nat): (history: seq<Poll>)
    ensures |history| == n + 1
  {
    seq(n + 1, k requires 0 <= k <= n => Poll(false, if k < n then start + Times(k, interval) else start + timeout))
  }

  function PunctualSleeps(start: real, timeout: Delay, interval: Delay, n: nat): (sleeps: seq<real>)
    ensures |sleeps| == n
  {
    seq(n, k requires 0 <= k < n => Min(interval, timeout - Times(k, interval)))
  }

  /** Before the rounded-up quotient an interval's multiples stay below the timeout; at it they reach it. */
  lemma MultiplesAroundTimeout(k: nat, timeout: Delay, interval: Delay)
    requires interval > 0.0
    ensures Times(k, interval) < timeout <==> k < RoundedUp(timeout / interval)
  {
    TimesMultiplies(k, interval);
    if Times(k, interval) < timeout {
      EarlyPolls(k, timeout, interval);
    } else {
      QuotientAtMost(k as real, timeout, interval);
    }
  }

  lemma QuotientAtMost(x: real, y: real, z: real)
    requires z > 0.0 && x * z >= y
    ensures y / z <= x
  {
    var q := y / z;
    assert q * z == y;
    assert q > x ==> (q - x) * z > 0.0;
  }

  /** The bound is reached for every timeout and interval: polls on time make exactly that many. */
  lemma WaitBoundIsReached(start: real, timeout: Delay, interval: Delay)
    requires timeout > 0.0 && interval > 0.0
    ensures var n := RoundedUp(timeout / interval);
            && n > 0
            && ClockAdvances(start, start + timeout, interval, PunctualPolls(start, timeout, interval, n))
            && IsWait(start + timeout, interval, PunctualPolls(start, timeout, interval, n), TimedOut(n + 1),
                      PunctualSleeps(start, timeout, interval, n))
  {
    hide RoundedUp, Times;
    var n := RoundedUp(timeout / interval);
    FirstMultiple(timeout, interval);
    PunctualClock(start, timeout, interval, n);
    PunctualWait(start, timeout, interval, n);
  }

  lemma FirstMultiple(timeout: Delay, interval: Delay)
    requires timeout > 0.0 && interval > 0.0
    ensures RoundedUp(timeout / interval) > 0
  {
    MultiplesAroundTimeout(0, timeout, interval);
  }

  lemma PunctualClock(start: real, timeout: Delay, interval: Delay, n: nat)
    requires interval > 0.0 && n == RoundedUp(timeout / interval) && n > 0
    ensures ClockAdvances(start, start + timeout, interval, PunctualPolls(start, timeout, interval, n))
  {
    hide RoundedUp, Times, PunctualPolls;
    var history := PunctualPolls(start, timeout, interval, n);
    forall k {:trigger history[k]} | 0 < k < |history|
      ensures history[k - 1].at < start + timeout
              && history[k].at == history[k - 1].at + Min(interval, start + timeout - history[k - 1].at)
    {
      PunctualStep(start, timeout, interval, n, k);
    }
    FirstPollAtStart(start, timeout, interval, n);
  }

  lemma FirstPollAtStart(start: real, timeout: Delay, interval: Delay, n: nat)
    requires n > 0
    ensures PunctualPolls(start, timeout, interval, n)[0].at == start
  {
    assert Times(0, interval) == 0.0;
  }

  lemma PunctualStep(start: real, timeout: Delay, interval: Delay, n: nat, k: nat)
    requires interval > 0.0 && n == RoundedUp(timeout / interval) && 0 < k <= n
    ensures var history := PunctualPolls(start, timeout, interval, n);
            && history[k - 1].at < start + timeout
            && history[k].at == history[k - 1].at + Min(interval, start + timeout - history[k - 1].at)
  {
    hide RoundedUp, Times;
    MultiplesAroundTimeout(k - 1, timeout, interval);
    MultiplesAroundTimeout(k, timeout, interval);
    NextMultiple(k, interval);
    var before, after := Times(k - 1, interval), Times(k, interval);
    assert before < timeout && (k < n <==> after < timeout);
  }

  lemma NextMultiple(k: nat, x: real)
    requires k > 0
    ensures Times(k, x) == Times(k - 1, x) + x
  {
  }

  lemma PunctualWait(start: real, timeout: Delay, interval: Delay, n: nat)
    requires interval > 0.0 && n == RoundedUp(timeout / interval) && n > 0
    ensures IsWait(start + timeout, interval, PunctualPolls(start, timeout, interval, n), TimedOut(n + 1),
                   PunctualSleeps(start, timeout, interval, n))
  {
    hide RoundedUp, Times;
    var deadline, history := start + timeout, PunctualPolls(start, timeout, interval, n);
    forall k | 0 <= k < n
      ensures !Stops(history[k], deadline)
              && PunctualSleeps(start, timeout, interval, n)[k] == Min(interval, deadline - history[k].at)
    {
      MultiplesAroundTimeout(k, timeout, interval);
    }
  }
}
