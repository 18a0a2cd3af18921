/** The availability prober, `processUsername` (main.go:248-298): up to three
    GETs against the validation endpoint with sleeps between them, decoding
    of the last response, classification of its `code`, and the side effects
    on the counters, the valid log and the webhook. The HTTP exchange is an
    abstract `Attempt`; the side effects are an ordered trace. */
module Prober {
  import opened Common

  /** What decoding a response body yields: the body is not JSON
      (`json.Decoder.Decode` fails), it is but has no numeric `code`
      (the `.(float64)` assertion fails), or it carries a code. */
  datatype Body = Undecodable | NoCode | Code(code: int)

  /** One `client.Get`: a transport error, or a response with a status. */
  datatype Attempt = TransportErr | Resp(status: int, body: Body)

  const MaxProbeAttempts: nat := 3

  /** The loop's exit test: no error and status 200. */
  predicate Accepted(a: Attempt) {
    a.Resp? && a.status == StatusOK
  }

  /** The retry loop's observable run: how many GETs were made, the
      durations passed to `time.Sleep` (nanoseconds), and the attempt whose
      `resp, err` survive the loop. */
  datatype ProbeRun = ProbeRun(attempts: nat, sleeps: seq<int>, final: Attempt)

  /** The loop from iteration `i` on, having made `i` failed attempts and
      the sleeps that followed them. */
  function RetryFrom(answers: seq<Attempt>, i: nat, sleeps: seq<int>): (r: ProbeRun)
    requires |answers| == MaxProbeAttempts && i < MaxProbeAttempts
    requires |sleeps| == i && forall k :: 0 <= k < i ==> sleeps[k] == Pow2(k) * Second
    requires forall k :: 0 <= k < i ==> !Accepted(answers[k])
    ensures i < r.attempts <= MaxProbeAttempts
    ensures r.final == answers[r.attempts - 1]
    ensures forall k :: 0 <= k < r.attempts - 1 ==> !Accepted(answers[k])
    ensures r.attempts < MaxProbeAttempts ==> Accepted(r.final)
    ensures |r.sleeps| == if Accepted(r.final) then r.attempts - 1 else r.attempts
    ensures forall k :: 0 <= k < |r.sleeps| ==> r.sleeps[k] == Pow2(k) * Second
    decreases MaxProbeAttempts - i
  {
    var a := answers[i];
    if Accepted(a) then ProbeRun(i + 1, sleeps, a)
    else
      var slept := sleeps + [Pow2(i) * Second];
      if i + 1 == MaxProbeAttempts then ProbeRun(i + 1, slept, a)
      else RetryFrom(answers, i + 1, slept)
  }

  /** The retry loop of main.go:253-259. `answers[i]` is what the `i`-th GET
      would return; only the GETs actually made are consumed. The loop stops
      at the first accepted attempt; every attempt that is not accepted,
      the last one included, is followed by a sleep of `1 << i` seconds. */
  function RetrySchedule(answers: seq<Attempt>): (r: ProbeRun)
    requires |answers| == MaxProbeAttempts
    ensures 1 <= r.attempts <= MaxProbeAttempts
    ensures r.final == answers[r.attempts - 1]
    ensures forall k :: 0 <= k < r.attempts - 1 ==> !Accepted(answers[k])
    ensures r.attempts < MaxProbeAttempts ==> Accepted(r.final)
    ensures |r.sleeps| == if Accepted(r.final) then r.attempts - 1 else r.attempts
    ensures forall k :: 0 <= k < |r.sleeps| ==> r.sleeps[k] == Pow2(k) * Second
  {
    RetryFrom(answers, 0, [])
  }

  /** The classification of a probed name. `Failed` is every path that only
      counts the name as checked. */
  datatype Outcome = Available | Taken | Censored | Failed

  /** Main.go:260-297 after the loop: a transport error, an undecodable body
      or a missing code fail; otherwise code 0, 1, 2 classify and any other
      code fails. The status of the surviving response is not looked at. */
  function Classify(final: Attempt): (o: Outcome)
    ensures o == Available <==> final.Resp? && final.body == Code(0)
    ensures o == Taken <==> final.Resp? && final.body == Code(1)
    ensures o == Censored <==> final.Resp? && final.body == Code(2)
  {
    match final
    case TransportErr => Failed
    case Resp(_, body) =>
      match body
      case Undecodable => Failed
      case NoCode => Failed
      case Code(c) =>
        if c == 0 then Available else if c == 1 then Taken else if c == 2 then Censored else Failed
  }

  /** A `sendToWebhook` call: target URL and message text. */
  datatype WebhookCall = WebhookCall(url: string, content: string)

  /** The message text of main.go:302. */
  function ClaimMessage(name: string): string {
    "Claimable! `" + name + "`"
  }

  /** Different names give different messages. */
  lemma ClaimMessageInjective(a: string, b: string)
    requires ClaimMessage(a) == ClaimMessage(b)
    ensures a == b
  {
    var ma, mb := ClaimMessage(a), ClaimMessage(b);
    assert |a| == |b|;
    assert a == ma[12..|ma| - 1];
    assert b == mb[12..|mb| - 1];
  }

  /** One side effect of `processUsername`, in program order. */
  datatype Effect =
    | CountChecked
    | CountValid
    | CountTaken
    | CountCensored
    | AppendValid(name: string)
    | Notify(call: WebhookCall)

  /** The result of probing one name. */
  datatype Report = Report(run: ProbeRun, outcome: Outcome, trace: seq<Effect>)

  /** `processUsername`. `checked` is counted first on every path; a valid
      name is counted before it is appended to the valid log, and the
      webhook is called after that. */
  function ProcessUsername(name: string, url: string, answers: seq<Attempt>): (r: Report)
    requires |answers| == MaxProbeAttempts
    ensures r.run == RetrySchedule(answers) && r.outcome == Classify(r.run.final)
    ensures |r.trace| >= 1 && r.trace[0] == CountChecked
    ensures forall k :: 1 <= k < |r.trace| ==> r.trace[k] != CountChecked
    ensures r.outcome == Failed <==> |r.trace| == 1
  {
    var run := RetrySchedule(answers);
    var outcome := Classify(run.final);
    var trace :=
      match outcome
      case Failed => [CountChecked]
      case Available =>
        [CountChecked, CountValid, AppendValid(name), Notify(WebhookCall(url, ClaimMessage(name)))]
      case Taken => [CountChecked, CountTaken]
      case Censored => [CountChecked, CountCensored];
    Report(run, outcome, trace)
  }

  // ---------------------------------------------------------------------
  // Shared state the effects act on.

  /** The four atomic counters (`totalChecked`, `totalValid`, `totalTaken`,
      `totalCensored`). */
  datatype Counters = Counters(checked: nat, valid: nat, taken: nat, censored: nat)

  /** The counters, the lines appended to `valid.txt` (earlier contents of
      the file are not tracked), and the webhook calls made. */
  datatype Sinks = Sinks(counters: Counters, validLog: seq<string>, webhookCalls: seq<WebhookCall>)

  /** Every classified name was checked first; the difference is the
      failed probes. */
  predicate Consistent(c: Counters) {
    c.valid + c.taken + c.censored <= c.checked
  }

  function Perform(st: Sinks, e: Effect): Sinks {
    var c := st.counters;
    match e
    case CountChecked => st.(counters := c.(checked := c.checked + 1))
    case CountValid => st.(counters := c.(valid := c.valid + 1))
    case CountTaken => st.(counters := c.(taken := c.taken + 1))
    case CountCensored => st.(counters := c.(censored := c.censored + 1))
    case AppendValid(n) => st.(validLog := st.validLog + [n])
    case Notify(call) => st.(webhookCalls := st.webhookCalls + [call])
  }

  function PerformAll(st: Sinks, trace: seq<Effect>): Sinks
    decreases trace
  {
    if trace == [] then st else PerformAll(Perform(st, trace[0]), trace[1..])
  }

  /** The counter rules of processUsername: `checked` grows by exactly one;
      one of `valid`/`taken`/`censored` grows by one exactly when the
      outcome is not `Failed`, matching the outcome; the valid log and the
      webhook calls grow by the name exactly when it is available. Hence
      `valid + taken + censored <= checked` is preserved. */
  lemma ProcessUsernameEffects(st: Sinks, name: string, url: string, answers: seq<Attempt>)
    requires |answers| == MaxProbeAttempts
    ensures var r := ProcessUsername(name, url, answers);
            var c := st.counters;
            var st' := PerformAll(st, r.trace);
            var c' := st'.counters;
            && c'.checked == c.checked + 1
            && c'.valid == c.valid + (if r.outcome == Available then 1 else 0)
            && c'.taken == c.taken + (if r.outcome == Taken then 1 else 0)
            && c'.censored == c.censored + (if r.outcome == Censored then 1 else 0)
            && st'.validLog == st.validLog + (if r.outcome == Available then [name] else [])
            && st'.webhookCalls == st.webhookCalls +
                 (if r.outcome == Available then [WebhookCall(url, ClaimMessage(name))] else [])
            && (Consistent(c) ==> Consistent(c'))
            && c'.checked - (c'.valid + c'.taken + c'.censored)
               == c.checked - (c.valid + c.taken + c.censored) + (if r.outcome == Failed then 1 else 0)
  {
    var r := ProcessUsername(name, url, answers);
    var c := st.counters;
    var s1 := Perform(st, CountChecked);
    match r.outcome
    case Failed =>
      assert PerformAll(st, r.trace) == s1;
    case Taken =>
      assert PerformAll(st, r.trace) == PerformAll(s1, [CountTaken]);
    case Censored =>
      assert PerformAll(st, r.trace) == PerformAll(s1, [CountCensored]);
    case Available =>
      var call := WebhookCall(url, ClaimMessage(name));
      var s2 := Perform(s1, CountValid);
      var s3 := Perform(s2, AppendValid(name));
      assert PerformAll(st, r.trace) == PerformAll(s1, [CountValid, AppendValid(name), Notify(call)]);
      assert PerformAll(s1, [CountValid, AppendValid(name), Notify(call)])
          == PerformAll(s2, [AppendValid(name), Notify(call)]);
      assert PerformAll(s2, [AppendValid(name), Notify(call)]) == PerformAll(s3, [Notify(call)]);
      assert PerformAll(s3, [Notify(call)]) == Perform(s3, Notify(call));
  }

  /** An available name is counted, then appended to the valid log, then
      announced, each as its own step. A snapshot taken in between (as
      `updateTitle` may take) sees `valid` already raised while the log and
      the webhook calls are not yet, and then the log line without the
      webhook call. */
  lemma AvailableEffectOrder(st: Sinks, name: string, url: string, answers: seq<Attempt>)
    requires |answers| == MaxProbeAttempts
    requires ProcessUsername(name, url, answers).outcome == Available
    ensures var t := ProcessUsername(name, url, answers).trace;
            && |t| == 4
            && t[1] == CountValid
            && t[2] == AppendValid(name)
            && t[3] == Notify(WebhookCall(url, ClaimMessage(name)))
    ensures var t := ProcessUsername(name, url, answers).trace;
            var mid := PerformAll(st, t[..2]);
            && mid.counters.valid == st.counters.valid + 1
            && mid.validLog == st.validLog
            && mid.webhookCalls == st.webhookCalls
    ensures var t := ProcessUsername(name, url, answers).trace;
            var logged := PerformAll(st, t[..3]);
            && logged.validLog == st.validLog + [name]
            && logged.webhookCalls == st.webhookCalls
  {
    var t := ProcessUsername(name, url, answers).trace;
    var s1 := Perform(st, CountChecked);
    var s2 := Perform(s1, CountValid);
    assert t[..2] == [CountChecked, CountValid];
    assert PerformAll(st, t[..2]) == PerformAll(s1, [CountValid]) == s2;
    assert t[..3] == [CountChecked, CountValid, AppendValid(name)];
    assert PerformAll(st, t[..3]) == PerformAll(s1, [CountValid, AppendValid(name)]);
    assert PerformAll(s1, [CountValid, AppendValid(name)]) == PerformAll(s2, [AppendValid(name)]);
    assert PerformAll(s2, [AppendValid(name)]) == Perform(s2, AppendValid(name));
  }

  /** Spelled out from the answers: code 0 logs exactly the name and makes
      exactly one webhook call; code 1 and 2 count only `taken` or
      `censored`; anything else — an unaccepted transport error, an
      undecodable body, a missing code, another code — changes only
      `checked`. This holds whatever the status of the surviving response. */
  lemma ProcessUsernameByCode(st: Sinks, name: string, url: string, answers: seq<Attempt>)
    requires |answers| == MaxProbeAttempts
    ensures var final := RetrySchedule(answers).final;
            var st' := PerformAll(st, ProcessUsername(name, url, answers).trace);
            var c := st.counters;
            && (final.Resp? && final.body == Code(0) ==>
                  st' == Sinks(c.(checked := c.checked + 1, valid := c.valid + 1),
                               st.validLog + [name],
                               st.webhookCalls + [WebhookCall(url, ClaimMessage(name))]))
            && (final.Resp? && final.body == Code(1) ==>
                  st' == st.(counters := c.(checked := c.checked + 1, taken := c.taken + 1)))
            && (final.Resp? && final.body == Code(2) ==>
                  st' == st.(counters := c.(checked := c.checked + 1, censored := c.censored + 1)))
            && (!(final.Resp? && final.body.Code? && 0 <= final.body.code <= 2) ==>
                  st' == st.(counters := c.(checked := c.checked + 1)))
  {
    ProcessUsernameEffects(st, name, url, answers);
  }

  /** A never-answering oracle: three GETs, sleeps of 1, 2 and 4 seconds
      (the last one after the final attempt), and only `checked` moves. */
  lemma AllTransportErrors(st: Sinks, name: string, url: string)
    ensures var r := ProcessUsername(name, url, [TransportErr, TransportErr, TransportErr]);
            && r.run.attempts == 3
            && r.run.sleeps == [1 * Second, 2 * Second, 4 * Second]
            && r.outcome == Failed
            && PerformAll(st, r.trace) == st.(counters := st.counters.(checked := st.counters.checked + 1))
  {
    var r := ProcessUsername(name, url, [TransportErr, TransportErr, TransportErr]);
    assert Pow2(1) == 2 && Pow2(2) == 4;
  }

  /** An accepted first answer stops the loop at once, without sleeping. */
  lemma FirstAcceptedNoSleep(answers: seq<Attempt>)
    requires |answers| == MaxProbeAttempts && Accepted(answers[0])
    ensures RetrySchedule(answers) == ProbeRun(1, [], answers[0])
  {
  }

  /** When no attempt is accepted the third response is decoded anyway:
      a non-200 answer with a code still classifies the name. */
  lemma LastResponseDecoded(answers: seq<Attempt>)
    requires |answers| == MaxProbeAttempts
    requires forall k :: 0 <= k < MaxProbeAttempts ==> !Accepted(answers[k])
    ensures RetrySchedule(answers).attempts == MaxProbeAttempts
    ensures RetrySchedule(answers).final == answers[2]
    ensures |RetrySchedule(answers).sleeps| == MaxProbeAttempts
  {
  }
}
