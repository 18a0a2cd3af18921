/** The worker loops (`worker`, main.go:213-227, and `workerFromSlice`,
    main.go:230-245): each iteration takes a name, passes it through the
    dedup gate and probes it when admitted. The gate is a critical section,
    but the probe runs outside it, so the effects of different workers'
    probes interleave. The model first applies each admitted probe's
    effects as one step, in gate order (`Run`); `JoinedRun` then shows that
    once every probe has finished, any interleaving of those effects
    leaves the same counters and the same log and webhook calls up to
    order. File mode (mode 6) drains the loaded list; generated mode runs
    any finite prefix of the generators' output. */
module Dispatch {
  import opened DedupGate
  import opened Prober

  /** The process-wide shared state: the seen set and the sinks. */
  datatype World = World(seen: set<string>, sinks: Sinks)

  /** The state at start-up: nothing seen, all counters zero, nothing
      appended to `valid.txt` and no webhook called yet. */
  const Start: World := World({}, Sinks(Counters(0, 0, 0, 0), [], []))

  /** One loop iteration for `name`: a rejected name leaves everything as it
      was; an admitted one is probed with `answers` and its effects applied. */
  function WorkerStep(w: World, name: string, url: string, answers: seq<Attempt>): (r: World)
    requires |answers| == MaxProbeAttempts
    ensures r.seen == w.seen + {name}
    ensures name in w.seen ==> r == w
    ensures name !in w.seen ==> r.sinks == PerformAll(w.sinks, ProcessUsername(name, url, answers).trace)
  {
    var gate := TestAndSet(w.seen, name);
    if gate.admitted then World(gate.seen, PerformAll(w.sinks, ProcessUsername(name, url, answers).trace))
    else World(gate.seen, w.sinks)
  }

  predicate AnswersFit(answers: seq<seq<Attempt>>) {
    forall k :: 0 <= k < |answers| ==> |answers[k]| == MaxProbeAttempts
  }

  /** A run over `names` in gate order; `answers[k]` is what the oracle
      would answer for the `k`-th name if it is probed. */
  function Run(w: World, names: seq<string>, url: string, answers: seq<seq<Attempt>>): (r: World)
    requires |answers| == |names| && AnswersFit(answers)
    ensures r.seen == w.seen + (set x | x in names)
    decreases names
  {
    if names == [] then w
    else
      assert names == [names[0]] + names[1..];
      Run(WorkerStep(w, names[0], url, answers[0]), names[1..], url, answers[1..])
  }

  /** The invariant of the shared state when no probe is in flight, for a
      run whose webhook URL is `url`:
      - `checked` counts the names ever admitted, which are the seen names;
      - `valid + taken + censored <= checked`;
      - `valid` counts the lines of the valid log and the webhook calls;
      - for every name, the calls carrying its claim message are as many
        as its lines in the log (the order of the two is not related);
      - no name is logged twice and every logged name has been seen. */
  ghost predicate Inv(w: World, url: string) {
    var s := w.sinks;
    && s.counters.checked == |w.seen|
    && Consistent(s.counters)
    && s.counters.valid == |s.validLog| == |s.webhookCalls|
    && (forall x :: multiset(s.webhookCalls)[WebhookCall(url, ClaimMessage(x))] == multiset(s.validLog)[x])
    && NoDuplicates(s.validLog)
    && (forall k :: 0 <= k < |s.validLog| ==> s.validLog[k] in w.seen)
  }

  lemma StartInv(url: string)
    ensures Inv(Start, url)
  {
  }

  /** Every loop iteration keeps the invariant. */
  lemma WorkerStepInv(w: World, name: string, url: string, answers: seq<Attempt>)
    requires |answers| == MaxProbeAttempts && Inv(w, url)
    ensures Inv(WorkerStep(w, name, url, answers), url)
  {
    if name !in w.seen {
      ProcessUsernameEffects(w.sinks, name, url, answers);
      var r := WorkerStep(w, name, url, answers);
      assert |r.seen| == |w.seen| + 1;
      var log, calls := r.sinks.validLog, r.sinks.webhookCalls;
      if log != w.sinks.validLog {
        var call := WebhookCall(url, ClaimMessage(name));
        assert log == w.sinks.validLog + [name];
        assert calls == w.sinks.webhookCalls + [call];
        forall i, j | 0 <= i < j < |log| ensures log[i] != log[j] {
          if j == |log| - 1 {
            assert log[i] in w.seen;
          }
        }
        forall x ensures multiset(calls)[WebhookCall(url, ClaimMessage(x))] == multiset(log)[x] {
          if WebhookCall(url, ClaimMessage(x)) == call {
            ClaimMessageInjective(x, name);
          }
        }
      }
    }
  }

  /** A whole run keeps the invariant. */
  lemma {:induction false} RunInv(w: World, names: seq<string>, url: string, answers: seq<seq<Attempt>>)
    requires |answers| == |names| && AnswersFit(answers) && Inv(w, url)
    ensures Inv(Run(w, names, url, answers), url)
    decreases names
  {
    if names != [] {
      WorkerStepInv(w, names[0], url, answers[0]);
      RunInv(WorkerStep(w, names[0], url, answers[0]), names[1..], url, answers[1..]);
    }
  }

  /** The names a run probes are exactly those the gate admits: `checked`
      grows by their number. */
  lemma {:induction false} RunChecked(w: World, names: seq<string>, url: string, answers: seq<seq<Attempt>>)
    requires |answers| == |names| && AnswersFit(answers)
    ensures Run(w, names, url, answers).sinks.counters.checked
         == w.sinks.counters.checked + |Drain(w.seen, names).admitted|
    decreases names
  {
    if names != [] {
      var name := names[0];
      var w1 := WorkerStep(w, name, url, answers[0]);
      RunChecked(w1, names[1..], url, answers[1..]);
      if name !in w.seen {
        ProcessUsernameEffects(w.sinks, name, url, answers[0]);
      }
    }
  }

  /** The valid log only grows during a run, and only by names the gate
      admitted in that run. */
  lemma {:induction false} RunLogGrows(w: World, names: seq<string>, url: string, answers: seq<seq<Attempt>>)
    requires |answers| == |names| && AnswersFit(answers)
    ensures var log := Run(w, names, url, answers).sinks.validLog;
            && |w.sinks.validLog| <= |log|
            && log[..|w.sinks.validLog|] == w.sinks.validLog
            && forall k :: |w.sinks.validLog| <= k < |log| ==> log[k] in Drain(w.seen, names).admitted
    decreases names
  {
    if names != [] {
      var name := names[0];
      var w1 := WorkerStep(w, name, url, answers[0]);
      RunLogGrows(w1, names[1..], url, answers[1..]);
      var log0 := w.sinks.validLog;
      var log1 := w1.sinks.validLog;
      var log := Run(w1, names[1..], url, answers[1..]).sinks.validLog;
      assert Run(w, names, url, answers).sinks.validLog == log;
      var adm1 := Drain(w1.seen, names[1..]).admitted;
      var adm := Drain(w.seen, names).admitted;
      if name !in w.seen {
        ProcessUsernameEffects(w.sinks, name, url, answers[0]);
        assert adm == [name] + adm1;
        assert log1 == log0 || log1 == log0 + [name];
        assert log[..|log0|] == log[..|log1|][..|log0|];
        forall k | |log0| <= k < |log| ensures log[k] in adm {
          if k < |log1| {
            assert log[k] == log1[k] == name;
          } else {
            assert log[k] in adm1;
          }
        }
      } else {
        assert adm == adm1;
        assert log1 == log0;
      }
    }
  }

  // ---------------------------------------------------------------------
  // Interleaved probes. Each admitted probe emits its own trace; the
  // workers' traces interleave, so the effect sequence the shared state
  // sees is a reordering of the traces laid end to end in gate order.

  /** The traces of the probes a run admits, in gate order. */
  function Effects(w: World, names: seq<string>, url: string, answers: seq<seq<Attempt>>): seq<Effect>
    requires |answers| == |names| && AnswersFit(answers)
    decreases names
  {
    if names == [] then []
    else
      var t := if names[0] in w.seen then [] else ProcessUsername(names[0], url, answers[0]).trace;
      t + Effects(WorkerStep(w, names[0], url, answers[0]), names[1..], url, answers[1..])
  }

  lemma {:induction false} PerformAllAppend(st: Sinks, a: seq<Effect>, b: seq<Effect>)
    ensures PerformAll(st, a + b) == PerformAll(PerformAll(st, a), b)
    decreases a
  {
    if a != [] {
      assert (a + b)[0] == a[0] && (a + b)[1..] == a[1..] + b;
      PerformAllAppend(Perform(st, a[0]), a[1..], b);
    } else {
      assert a + b == b;
    }
  }

  /** The sequential run performs exactly those traces, one after another. */
  lemma {:induction false} RunPerformsEffects(w: World, names: seq<string>, url: string, answers: seq<seq<Attempt>>)
    requires |answers| == |names| && AnswersFit(answers)
    ensures Run(w, names, url, answers).sinks == PerformAll(w.sinks, Effects(w, names, url, answers))
    decreases names
  {
    if names != [] {
      var w1 := WorkerStep(w, names[0], url, answers[0]);
      var t := if names[0] in w.seen then [] else ProcessUsername(names[0], url, answers[0]).trace;
      RunPerformsEffects(w1, names[1..], url, answers[1..]);
      PerformAllAppend(w.sinks, t, Effects(w1, names[1..], url, answers[1..]));
      assert PerformAll(w.sinks, t) == w1.sinks;
    }
  }

  /** What a sequence of effects does to the sinks, counted per kind: each
      counter grows by the number of its effects, and the log and the
      webhook calls grow by the names and calls the effects carry. */
  lemma {:induction false} PerformAllCounts(st: Sinks, e: seq<Effect>)
    ensures var st' := PerformAll(st, e);
            && st'.counters.checked == st.counters.checked + multiset(e)[CountChecked]
            && st'.counters.valid == st.counters.valid + multiset(e)[CountValid]
            && st'.counters.taken == st.counters.taken + multiset(e)[CountTaken]
            && st'.counters.censored == st.counters.censored + multiset(e)[CountCensored]
            && (forall x :: multiset(st'.validLog)[x] == multiset(st.validLog)[x] + multiset(e)[AppendValid(x)])
            && (forall c :: multiset(st'.webhookCalls)[c] == multiset(st.webhookCalls)[c] + multiset(e)[Notify(c)])
    decreases e
  {
    if e != [] {
      var st1 := Perform(st, e[0]);
      PerformCounts(st, e[0]);
      PerformAllCounts(st1, e[1..]);
      assert PerformAll(st, e) == PerformAll(st1, e[1..]);
      assert e == [e[0]] + e[1..];
      var m, m0, m1 := multiset(e), multiset([e[0]]), multiset(e[1..]);
      assert m == m0 + m1;
      forall x ensures m[AppendValid(x)] == m0[AppendValid(x)] + m1[AppendValid(x)] { }
      forall c ensures m[Notify(c)] == m0[Notify(c)] + m1[Notify(c)] { }
    }
  }

  /** `PerformAllCounts` for a single effect. */
  lemma PerformCounts(st: Sinks, a: Effect)
    ensures var st' := Perform(st, a);
            && st'.counters.checked == st.counters.checked + multiset([a])[CountChecked]
            && st'.counters.valid == st.counters.valid + multiset([a])[CountValid]
            && st'.counters.taken == st.counters.taken + multiset([a])[CountTaken]
            && st'.counters.censored == st.counters.censored + multiset([a])[CountCensored]
            && (forall x :: multiset(st'.validLog)[x] == multiset(st.validLog)[x] + multiset([a])[AppendValid(x)])
            && (forall c :: multiset(st'.webhookCalls)[c] == multiset(st.webhookCalls)[c] + multiset([a])[Notify(c)])
  {
    var st' := Perform(st, a);
    match a
    case AppendValid(n) =>
      assert st'.validLog == st.validLog + [n];
      assert st'.webhookCalls == st.webhookCalls;
    case Notify(call) =>
      assert st'.validLog == st.validLog;
      assert st'.webhookCalls == st.webhookCalls + [call];
    case _ =>
      assert st'.validLog == st.validLog && st'.webhookCalls == st.webhookCalls;
  }

  /** Reordering the effects changes neither the counters nor what the log
      and the webhook calls hold, only their order. */
  lemma ReorderedEffects(st: Sinks, e1: seq<Effect>, e2: seq<Effect>)
    requires multiset(e1) == multiset(e2)
    ensures PerformAll(st, e1).counters == PerformAll(st, e2).counters
    ensures multiset(PerformAll(st, e1).validLog) == multiset(PerformAll(st, e2).validLog)
    ensures multiset(PerformAll(st, e1).webhookCalls) == multiset(PerformAll(st, e2).webhookCalls)
  {
    PerformAllCounts(st, e1);
    PerformAllCounts(st, e2);
    var s1, s2 := PerformAll(st, e1), PerformAll(st, e2);
    assert forall x :: multiset(s1.validLog)[x] == multiset(s2.validLog)[x];
    assert forall c :: multiset(s1.webhookCalls)[c] == multiset(s2.webhookCalls)[c];
  }

  /** A reordering of a list without repeats has no repeats. */
  lemma NoDuplicatesPermutation(a: seq<string>, b: seq<string>)
    requires multiset(a) == multiset(b) && NoDuplicates(a)
    ensures NoDuplicates(b)
  {
    forall i, j | 0 <= i < j < |b| ensures b[i] != b[j] {
      var v := b[i];
      NoDuplicatesCount(a, v);
      assert b == b[..j] + [b[j]] + b[j + 1..];
      assert b[..j][i] == v;
      assert multiset(b)[v] == multiset(b[..j])[v] + multiset([b[j]])[v] + multiset(b[j + 1..])[v];
    }
  }

  /** The state once every probe of a run has finished: for ANY
      interleaving `e` of the admitted probes' traces (indeed any
      reordering of them), the seen set and the counters are those of the
      sequential run, the log holds the same names, and the invariant
      holds. */
  lemma JoinedRun(w: World, names: seq<string>, url: string, answers: seq<seq<Attempt>>, e: seq<Effect>)
    requires |answers| == |names| && AnswersFit(answers) && Inv(w, url)
    requires multiset(e) == multiset(Effects(w, names, url, answers))
    ensures var r := Run(w, names, url, answers);
            var s := PerformAll(w.sinks, e);
            && s.counters == r.sinks.counters
            && multiset(s.validLog) == multiset(r.sinks.validLog)
            && multiset(s.webhookCalls) == multiset(r.sinks.webhookCalls)
            && Inv(World(r.seen, s), url)
  {
    var r := Run(w, names, url, answers);
    var s := PerformAll(w.sinks, e);
    RunInv(w, names, url, answers);
    RunPerformsEffects(w, names, url, answers);
    ReorderedEffects(w.sinks, e, Effects(w, names, url, answers));
    NoDuplicatesPermutation(r.sinks.validLog, s.validLog);
    assert |s.validLog| == |multiset(s.validLog)| == |r.sinks.validLog|;
    assert |s.webhookCalls| == |multiset(s.webhookCalls)| == |r.sinks.webhookCalls|;
    forall k | 0 <= k < |s.validLog| ensures s.validLog[k] in r.seen {
      assert s.validLog[k] in multiset(r.sinks.validLog);
    }
  }

  /** File mode from start-up, after `wg.Wait()`: whatever the interleaving
      of the probes, `checked` equals the number of distinct usernames, the
      counters are consistent, no name is logged twice, each logged name
      has exactly one webhook call with its claim message and there are no
      other calls, and every logged name comes from the file. */
  lemma FileModeRun(names: seq<string>, url: string, answers: seq<seq<Attempt>>, e: seq<Effect>)
    requires |answers| == |names| && AnswersFit(answers)
    requires multiset(e) == multiset(Effects(Start, names, url, answers))
    ensures var s := PerformAll(Start.sinks, e);
            && s.counters.checked == |set x | x in names|
            && Consistent(s.counters)
            && NoDuplicates(s.validLog)
            && |s.webhookCalls| == |s.validLog| == s.counters.valid
            && (forall x :: multiset(s.webhookCalls)[WebhookCall(url, ClaimMessage(x))] == multiset(s.validLog)[x])
            && forall k :: 0 <= k < |s.validLog| ==> s.validLog[k] in names
  {
    StartInv(url);
    JoinedRun(Start, names, url, answers, e);
    var r := Run(Start, names, url, answers);
    assert r.seen == set x | x in names;
  }

  /** The number of names probed does not depend on the order in which the
      workers happen to take them: any reordering of the list probes as
      many names. */
  lemma OrderIndependentCount(w: World, a: seq<string>, b: seq<string>, url: string,
                              answersA: seq<seq<Attempt>>, answersB: seq<seq<Attempt>>)
    requires multiset(a) == multiset(b)
    requires |answersA| == |a| && AnswersFit(answersA)
    requires |answersB| == |b| && AnswersFit(answersB)
    ensures Run(w, a, url, answersA).sinks.counters.checked == Run(w, b, url, answersB).sinks.counters.checked
  {
    RunChecked(w, a, url, answersA);
    RunChecked(w, b, url, answersB);
    DrainExactlyOnce(w.seen, a);
    DrainExactlyOnce(w.seen, b);
    SameElements(a, b);
  }

  lemma SameElements(a: seq<string>, b: seq<string>)
    requires multiset(a) == multiset(b)
    ensures (set x | x in a) == (set x | x in b)
  {
    forall x ensures x in a <==> x in b {
      assert x in a <==> x in multiset(a);
      assert x in b <==> x in multiset(b);
    }
  }
}
