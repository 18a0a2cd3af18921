/** The notification publisher, `sendToWebhook` (main.go:300-345): up to five
    POSTs of the claim message, stopping at the first 200 or 204, with a
    delay after every other outcome chosen by the retry policy. The HTTP
    exchange is an abstract `HookAttempt` and each `rand.Intn(300)` a draw
    passed in. The caller receives nothing back. */
module Webhook {
  import opened Common
  import opened Text

  /** One loop iteration's outcome: `http.NewRequest` failed, the request
      failed in transport, or a response arrived with a status code and the
      value of its `Retry-After` header (`""` when absent). */
  datatype HookAttempt = BuildErr | SendErr | Status(code: int, retryAfter: string)

  const MaxHookAttempts: nat := 5
  /** `rand.Intn(300)` draws lie in `[0, JitterRange)`. */
  const JitterRange: nat := 300
  const StatusNoContent: int := 204
  const StatusTooManyRequests: int := 429

  /** The loop returns on 200 or 204. */
  predicate Delivers(a: HookAttempt) {
    a.Status? && (a.code == StatusNoContent || a.code == StatusOK)
  }

  /** The wait after a 429: the header's value in seconds when
      `strconv.Atoi` accepts it (the product with `time.Second` is an
      `int64` and wraps), otherwise three seconds. */
  function RetryAfterDelay(header: string): (d: int)
    ensures InInt64(d)
    ensures Atoi(header).None? ==> d == 3 * Second
    ensures Atoi(header).Some? ==> d == WrapInt64(Atoi(header).value * Second)
  {
    var delay := 3 * Second;
    if header != "" then
      match Atoi(header)
      case Some(secs) => WrapInt64(secs * Second)
      case None => delay
    else delay
  }

  /** The sleep after an attempt that did not deliver (`None`: the loop
      continues without sleeping). */
  function SleepAfter(a: HookAttempt, draw: nat): (r: Option<int>)
    requires !Delivers(a)
    ensures r.None? <==> a.BuildErr?
    ensures a.SendErr? ==> 200 * Millisecond <= r.value && (draw < JitterRange ==> r.value < 500 * Millisecond)
    ensures a.SendErr? ==> r.value == (200 + draw) * Millisecond
    ensures a.Status? && a.code == StatusTooManyRequests ==> r.value == RetryAfterDelay(a.retryAfter)
    ensures a.Status? && a.code != StatusTooManyRequests ==>
      300 * Millisecond <= r.value && (draw < JitterRange ==> r.value < 600 * Millisecond)
    ensures a.Status? && a.code != StatusTooManyRequests ==> r.value == (300 + draw) * Millisecond
  {
    match a
    case BuildErr => None
    case SendErr => Some((200 + draw) * Millisecond)
    case Status(code, header) =>
      if code == StatusTooManyRequests then Some(RetryAfterDelay(header))
      else Some((300 + draw) * Millisecond)
  }

  function OptionSeq(o: Option<int>): seq<int> {
    if o.Some? then [o.value] else []
  }

  /** The policy's sleeps after the first `n` attempts, none of which delivered. */
  function PolicySleeps(outcomes: seq<HookAttempt>, draws: seq<nat>, n: nat): seq<int>
    requires n <= |outcomes| && n <= |draws|
    requires forall k :: 0 <= k < n ==> !Delivers(outcomes[k])
  {
    if n == 0 then []
    else PolicySleeps(outcomes, draws, n - 1) + OptionSeq(SleepAfter(outcomes[n - 1], draws[n - 1]))
  }

  predicate WellFormedDraws(draws: seq<nat>) {
    |draws| == MaxHookAttempts && forall k :: 0 <= k < |draws| ==> draws[k] < JitterRange
  }

  /** How a delivery went: attempts made, durations slept (nanoseconds), and
      whether the loop returned on success. */
  datatype Delivery = Delivery(attempts: nat, sleeps: seq<int>, delivered: bool)

  /** The loop from its `i`-th iteration (0-based) on. */
  function SendFrom(outcomes: seq<HookAttempt>, draws: seq<nat>, i: nat, sleeps: seq<int>): (r: Delivery)
    requires |outcomes| == MaxHookAttempts && WellFormedDraws(draws) && i < MaxHookAttempts
    requires forall k :: 0 <= k < i ==> !Delivers(outcomes[k])
    requires sleeps == PolicySleeps(outcomes, draws, i)
    ensures i < r.attempts <= MaxHookAttempts
    ensures forall k :: 0 <= k < r.attempts - 1 ==> !Delivers(outcomes[k])
    ensures r.delivered <==> Delivers(outcomes[r.attempts - 1])
    ensures !r.delivered ==> r.attempts == MaxHookAttempts
    ensures r.sleeps == PolicySleeps(outcomes, draws, if r.delivered then r.attempts - 1 else r.attempts)
    decreases MaxHookAttempts - i
  {
    var a := outcomes[i];
    if Delivers(a) then Delivery(i + 1, sleeps, true)
    else
      var slept := sleeps + OptionSeq(SleepAfter(a, draws[i]));
      if i + 1 == MaxHookAttempts then Delivery(i + 1, slept, false)
      else SendFrom(outcomes, draws, i + 1, slept)
  }

  /** `sendToWebhook`: attempt `k` meets `outcomes[k]` and, if it needs a
      random delay, uses `draws[k]`. At most five attempts; the first 200 or
      204 ends the loop at once; every other attempt, the fifth included,
      is followed by the policy's sleep. */
  function Send(outcomes: seq<HookAttempt>, draws: seq<nat>): (r: Delivery)
    requires |outcomes| == MaxHookAttempts && WellFormedDraws(draws)
    ensures 1 <= r.attempts <= MaxHookAttempts
    ensures forall k :: 0 <= k < r.attempts - 1 ==> !Delivers(outcomes[k])
    ensures r.delivered <==> Delivers(outcomes[r.attempts - 1])
    ensures !r.delivered ==> r.attempts == MaxHookAttempts
    ensures r.sleeps == PolicySleeps(outcomes, draws, if r.delivered then r.attempts - 1 else r.attempts)
  {
    SendFrom(outcomes, draws, 0, [])
  }

  /** The retry policy per outcome: a request-construction failure retries
      at once; a transport failure waits 200 to 499 ms; a 429 waits what
      `Retry-After` says; any other status waits 300 to 599 ms. */
  lemma SleepAfterPolicy(a: HookAttempt, draw: nat)
    requires !Delivers(a) && draw < JitterRange
    ensures a.BuildErr? <==> SleepAfter(a, draw).None?
    ensures a.SendErr? ==> 200 * Millisecond <= SleepAfter(a, draw).value < 500 * Millisecond
    ensures a.SendErr? ==> SleepAfter(a, draw).value == (200 + draw) * Millisecond
    ensures a.Status? && a.code == StatusTooManyRequests ==>
      SleepAfter(a, draw).value == RetryAfterDelay(a.retryAfter)
    ensures a.Status? && a.code != StatusTooManyRequests ==>
      300 * Millisecond <= SleepAfter(a, draw).value < 600 * Millisecond
    ensures a.Status? && a.code != StatusTooManyRequests ==>
      SleepAfter(a, draw).value == (300 + draw) * Millisecond
  {
  }

  /** The outcomes that wait a random time: a transport failure, or a
      status other than 200, 204 and 429. */
  predicate Jittered(a: HookAttempt) {
    a.SendErr? || (a.Status? && !Delivers(a) && a.code != StatusTooManyRequests)
  }

  /** The fixed part of a random wait, in milliseconds. */
  function JitterBase(a: HookAttempt): int {
    if a.SendErr? then 200 else 300
  }

  /** Different draws give different random waits. */
  lemma JitterDrawsDistinct(a: HookAttempt, d1: nat, d2: nat)
    requires Jittered(a)
    ensures SleepAfter(a, d1) == SleepAfter(a, d2) <==> d1 == d2
  {
  }

  /** Every whole-millisecond wait in the random range comes from the draw
      `ms - JitterBase(a)`, which `rand.Intn(300)` can return. */
  lemma JitterDrawCovers(a: HookAttempt, ms: int)
    requires Jittered(a)
    requires JitterBase(a) <= ms < JitterBase(a) + JitterRange
    ensures SleepAfter(a, ms - JitterBase(a)) == Some(ms * Millisecond)
  {
  }

  /** A `Retry-After` header that `Atoi` reads as `n` is honoured exactly
      while `n * time.Second` fits in an `int64` (about 292 years); a
      negative `n` gives a negative delay, which `time.Sleep` returns from
      at once. Beyond that range the product wraps. */
  lemma RetryAfterSeconds(header: string, n: int)
    requires Atoi(header) == Some(n)
    ensures InInt64(n * Second) ==> RetryAfterDelay(header) == n * Second
    ensures !InInt64(n * Second) ==> RetryAfterDelay(header) != n * Second
  {
  }

  /** Every spelling of the same number waits the same time: the decimal
      form `Itoa` writes, with a `+`, or with leading zeros. */
  lemma RetryAfterSpellings(n: nat)
    requires n * Second <= MaxInt64
    ensures RetryAfterDelay(Itoa(n)) == n * Second
    ensures RetryAfterDelay("+" + Itoa(n)) == n * Second
    ensures RetryAfterDelay("0" + Itoa(n)) == n * Second
  {
    AtoiItoa(n);
    NatStringDigits(n);
    assert Itoa(n) == NatString(n);
    AtoiPlus(Itoa(n));
    AtoiLeadingZero(Itoa(n));
  }

  /** A missing or unparsable `Retry-After` falls back to three seconds. */
  lemma RetryAfterFallback(header: string)
    requires header == "" || Atoi(header).None?
    ensures RetryAfterDelay(header) == 3 * Second
  {
  }

  /** Delivery succeeds exactly when one of the five outcomes is a 200 or 204. */
  lemma {:induction false} DeliveredIffSomeSuccess(outcomes: seq<HookAttempt>, draws: seq<nat>)
    requires |outcomes| == MaxHookAttempts && WellFormedDraws(draws)
    ensures Send(outcomes, draws).delivered <==> exists k :: 0 <= k < MaxHookAttempts && Delivers(outcomes[k])
  {
    var r := Send(outcomes, draws);
    if r.delivered {
      assert Delivers(outcomes[r.attempts - 1]);
    }
  }

  /** A 429 with `Retry-After: 5` followed by a 204: two attempts, one
      five-second wait, delivered. */
  lemma RateLimitedThenNoContent(rest: seq<HookAttempt>, draws: seq<nat>)
    requires |rest| == 3 && WellFormedDraws(draws)
    ensures var r := Send([Status(429, "5"), Status(204, "")] + rest, draws);
            r.attempts == 2 && r.sleeps == [5 * Second] && r.delivered
  {
    var outcomes := [Status(429, "5"), Status(204, "")] + rest;
    assert Itoa(5) == "5";
    RetryAfterSpellings(5);
    var r := Send(outcomes, draws);
    assert PolicySleeps(outcomes, draws, 1) == [RetryAfterDelay("5")];
  }

  /** A server error on every attempt: five attempts, five waits of 300 to
      599 ms (the last after the fifth attempt), not delivered. */
  lemma AlwaysServerError(draws: seq<nat>)
    requires WellFormedDraws(draws)
    ensures var r := Send(seq(MaxHookAttempts, _ => Status(500, "")), draws);
            && r.attempts == MaxHookAttempts && !r.delivered
            && |r.sleeps| == MaxHookAttempts
            && forall k :: 0 <= k < |r.sleeps| ==> 300 * Millisecond <= r.sleeps[k] < 600 * Millisecond
  {
    var outcomes := seq(MaxHookAttempts, _ => Status(500, ""));
    AllStatusSleeps(outcomes, draws, MaxHookAttempts);
  }

  lemma {:induction false} AllStatusSleeps(outcomes: seq<HookAttempt>, draws: seq<nat>, n: nat)
    requires n <= |outcomes| == MaxHookAttempts && WellFormedDraws(draws)
    requires forall k :: 0 <= k < |outcomes| ==> outcomes[k] == Status(500, "")
    ensures |PolicySleeps(outcomes, draws, n)| == n
    ensures forall k :: 0 <= k < n ==>
      300 * Millisecond <= PolicySleeps(outcomes, draws, n)[k] < 600 * Millisecond
  {
    if n > 0 {
      AllStatusSleeps(outcomes, draws, n - 1);
    }
  }

  /** A URL `http.NewRequest` rejects: five attempts, no waiting at all. */
  lemma AlwaysBuildError(draws: seq<nat>)
    requires WellFormedDraws(draws)
    ensures Send(seq(MaxHookAttempts, _ => BuildErr), draws) == Delivery(MaxHookAttempts, [], false)
  {
    AllBuildErrSleeps(seq(MaxHookAttempts, _ => BuildErr), draws, MaxHookAttempts);
  }

  lemma {:induction false} AllBuildErrSleeps(outcomes: seq<HookAttempt>, draws: seq<nat>, n: nat)
    requires n <= |outcomes| == MaxHookAttempts && WellFormedDraws(draws)
    requires forall k :: 0 <= k < |outcomes| ==> outcomes[k] == BuildErr
    ensures PolicySleeps(outcomes, draws, n) == []
  {
    if n > 0 {
      AllBuildErrSleeps(outcomes, draws, n - 1);
    }
  }
}
