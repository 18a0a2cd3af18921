/** The setup rules of `main` (main.go:431-514, 539-564) and `modeToName`
    (main.go:567-584): mode fallback, the webhook chosen for a mode, the
    thread-count clamp, and how workers are bound to proxies. */
module Setup {
  import opened Common
  import opened Input

  /** The five name generators of the menu. */
  datatype Generator = Gen5N | Gen5L | Gen4Mixed | Gen4L | Gen3N

  /** `config.json`: one webhook URL per mode. */
  datatype Config = Config(
    fiveN: string, fiveL: string, fourC: string, fourL: string, threeN: string,
    pronounceable5L: string)

  /** `validModes` (main.go:431-437). */
  const ValidModes: map<string, Generator> :=
    map["1" := Gen5N, "2" := Gen5L, "3" := Gen4Mixed, "4" := Gen4L, "5" := Gen3N]

  /** `webhookMap` (main.go:439-446). */
  function WebhookMap(cfg: Config): (m: map<string, string>)
    ensures m.Keys == KnownModes == ValidModes.Keys + {"6"}
    ensures m["1"] == cfg.fiveN && m["2"] == cfg.fiveL && m["3"] == cfg.fourC
    ensures m["4"] == cfg.fourL && m["5"] == cfg.threeN && m["6"] == cfg.pronounceable5L
  {
    map["1" := cfg.fiveN, "2" := cfg.fiveL, "3" := cfg.fourC, "4" := cfg.fourL,
        "5" := cfg.threeN, "6" := cfg.pronounceable5L]
  }

  /** A Go map read: the zero value for a missing key. */
  function Lookup(m: map<string, string>, key: string): string {
    if key in m then m[key] else ""
  }

  const KnownModes: set<string> := {"1", "2", "3", "4", "5", "6"}

  /** `modeToName`: the six menu entries by name, anything else "Unknown". */
  function ModeToName(mode: string): (name: string)
    ensures name == "Unknown" <==> mode !in KnownModes
  {
    match mode
    case "1" => "5N"
    case "2" => "5L"
    case "3" => "4C"
    case "4" => "4L"
    case "5" => "3N"
    case "6" => "Check from file"
    case _ => "Unknown"
  }

  /** Distinct menu entries have distinct names. */
  lemma ModeToNameInjective(m1: string, m2: string)
    requires m1 in KnownModes && m2 in KnownModes && ModeToName(m1) == ModeToName(m2)
    ensures m1 == m2
  {
  }

  /** The menu label of each generator. */
  function GeneratorName(g: Generator): string {
    match g
    case Gen5N => "5N"
    case Gen5L => "5L"
    case Gen4Mixed => "4C"
    case Gen4L => "4L"
    case Gen3N => "3N"
  }

  /** The threads prompt (main.go:508-514): a failed scan or a count below
      one becomes one. */
  function ClampThreads(scanned: Option<int>): (n: nat)
    ensures n >= 1
    ensures scanned.Some? && scanned.value >= 1 ==> n == scanned.value
    ensures scanned.None? || scanned.value < 1 ==> n == 1
  {
    if scanned.None? || scanned.value < 1 then 1 else scanned.value
  }

  /** What a worker sends its requests through. */
  datatype Transport = DefaultClient | ViaProxy(proxy: string)

  /** Where workers are bound as written: `proxies[i%len(proxies)]` for
      worker `i` (main.go:545, 559), which panics (integer division by zero)
      when the proxy list is empty. */
  datatype Binding = Panic | Bound(proxies: seq<string>)

  function BindProxiesAsWritten(proxies: seq<string>, threads: nat): (r: Binding)
    ensures r.Panic? <==> |proxies| == 0 && threads > 0
    ensures r.Bound? ==> |r.proxies| == threads
    ensures r.Bound? ==> forall i :: 0 <= i < threads ==> r.proxies[i] == proxies[i % |proxies|]
  {
    if threads == 0 then Bound([])
    else if |proxies| == 0 then Panic
    else Bound(seq(threads, i requires 0 <= i < threads => proxies[i % |proxies|]))
  }

  /** An empty or missing proxy file, whatever the thread count, makes the
      program panic before any worker starts. */
  lemma EmptyProxyListPanics(proxyLines: seq<string>, scanned: Option<int>)
    requires forall k :: 0 <= k < |proxyLines| ==> Text.TrimSpace(proxyLines[k]) == ""
    ensures BindProxiesAsWritten(NormaliseProxies(proxyLines), ClampThreads(scanned)) == Panic
  {
    NormaliseIsSchemedFilter(proxyLines);
    NoEntries(proxyLines);
  }

  lemma {:induction false} NoEntries(lines: seq<string>)
    requires forall k :: 0 <= k < |lines| ==> Text.TrimSpace(lines[k]) == ""
    ensures LoadUsernames(lines) == []
  {
    if lines != [] {
      NoEntries(lines[1..]);
    }
  }

  /** Worker binding as intended by the fail-open start-up: round-robin
      over the proxies, and the default client for every worker when there
      are none. */
  function BindTransports(proxies: seq<string>, threads: nat): (r: seq<Transport>)
    ensures |r| == threads
    ensures |proxies| == 0 ==> forall i :: 0 <= i < threads ==> r[i] == DefaultClient
    ensures |proxies| > 0 ==> forall i :: 0 <= i < threads ==> r[i] == ViaProxy(proxies[i % |proxies|])
  {
    seq(threads, i requires 0 <= i < threads =>
      if |proxies| == 0 then DefaultClient else ViaProxy(proxies[i % |proxies|]))
  }

  /** The corrected binding agrees with the written one wherever that one
      does not panic, and never panics itself. */
  lemma BindTransportsRefines(proxies: seq<string>, threads: nat)
    ensures var b := BindProxiesAsWritten(proxies, threads);
            b.Bound? ==> forall i :: 0 <= i < threads ==>
              BindTransports(proxies, threads)[i] == ViaProxy(b.proxies[i])
  {
  }

  /** Round robin: workers `i` and `i + len(proxies)` share a proxy, and once
      there are at least as many workers as proxies every proxy is used. */
  lemma RoundRobin(proxies: seq<string>, threads: nat)
    requires |proxies| > 0
    ensures forall i :: 0 <= i && i + |proxies| < threads ==>
      BindTransports(proxies, threads)[i] == BindTransports(proxies, threads)[i + |proxies|]
    ensures threads >= |proxies| ==> forall j :: 0 <= j < |proxies| ==>
      BindTransports(proxies, threads)[j] == ViaProxy(proxies[j])
  {
    var L := |proxies|;
    var b := BindTransports(proxies, threads);
    forall i | 0 <= i && i + L < threads
      ensures b[i] == b[i + L]
    {
      ModShift(i, L);
      assert b[i] == ViaProxy(proxies[i % L]) && b[i + L] == ViaProxy(proxies[(i + L) % L]);
    }
    forall j | 0 <= j < L && threads >= L
      ensures b[j] == ViaProxy(proxies[j])
    {
      DivModUnique(j, L, 0, j);
    }
  }

  lemma ModShift(i: nat, L: nat)
    requires L > 0
    ensures (i + L) % L == i % L
  {
    var q, r := i / L, i % L;
    assert i == q * L + r;
    assert i + L == (q + 1) * L + r;
    DivModUnique(i + L, L, q + 1, r);
  }

  /** How the run is fed: a generator, or the usernames of the file. */
  datatype Feed = Generate(gen: Generator) | FromList(usernames: seq<string>)

  /** Everything `main` decides before starting the workers; `binding` is
      the proxy each worker gets, or the panic of main.go:545/559. */
  datatype Plan = Plan(
    mode: string, feed: Feed, webhook: string, threads: nat, linesLoaded: nat,
    binding: Binding)

  /** The mode in effect: "6", a key of `validModes`, or the fallback "1"
      (main.go:488-493). */
  function ResolveMode(mode: string): (m: string)
    ensures m in KnownModes
    ensures mode in KnownModes ==> m == mode
    ensures mode !in KnownModes ==> m == "1"
  {
    if mode == "6" || mode in ValidModes then mode else "1"
  }

  /** `main` up to starting the workers: mode 6 reads the usernames file and
      always uses the pronounceable-5L webhook; any other mode must be a
      key of `validModes`, and falls back to "1" / `gen5N` if not; the
      webhook is `webhookMap[mode]` (empty if unset); the usernames file is
      opened only in mode 6, and "lines loaded" is 0 in the other modes.
      Workers are bound to proxies as written, so an empty proxy list is
      the start-up panic. */
  function PlanRun(mode: string, cfg: Config, proxyLines: seq<string>, usernameLines: seq<string>,
                   scanned: Option<int>): (p: Plan)
    ensures p.threads >= 1
    ensures p.threads == ClampThreads(scanned)
    ensures p.binding.Panic? <==> NormaliseProxies(proxyLines) == []
    ensures p.binding.Bound? ==> |p.binding.proxies| == p.threads
    ensures p.binding.Bound? ==> forall i :: 0 <= i < p.threads ==>
      p.binding.proxies[i] == NormaliseProxies(proxyLines)[i % |NormaliseProxies(proxyLines)|]
    ensures p.mode == ResolveMode(mode)
    ensures p.feed.FromList? <==> mode == "6"
    ensures p.feed.Generate? ==> p.feed.gen == ValidModes[p.mode]
    ensures p.feed.FromList? ==> p.feed.usernames == LoadUsernames(usernameLines)
    ensures p.linesLoaded == if p.feed.FromList? then |p.feed.usernames| else 0
    ensures p.webhook == Lookup(WebhookMap(cfg), p.mode)
  {
    var threads := ClampThreads(scanned);
    var binding := BindProxiesAsWritten(NormaliseProxies(proxyLines), threads);
    var m := ResolveMode(mode);
    if m == "6" then
      var usernames := LoadUsernames(usernameLines);
      Plan(m, FromList(usernames), cfg.pronounceable5L, threads, |usernames|, binding)
    else
      Plan(m, Generate(ValidModes[m]), Lookup(WebhookMap(cfg), m), threads, 0, binding)
  }

  /** Whatever is typed at the prompt, the module shown is a known one, the
      generator started matches its name, and the file mode's webhook is the
      pronounceable-5L one. */
  lemma PlanConsistent(mode: string, cfg: Config, proxyLines: seq<string>,
                       usernameLines: seq<string>, scanned: Option<int>)
    ensures var p := PlanRun(mode, cfg, proxyLines, usernameLines, scanned);
            && ModeToName(p.mode) != "Unknown"
            && (mode !in KnownModes ==> p.feed == Generate(Gen5N))
            && (p.feed.Generate? ==> ModeToName(p.mode) == GeneratorName(p.feed.gen))
            && (p.feed.FromList? ==> ModeToName(p.mode) == "Check from file" && p.webhook == cfg.pronounceable5L)
  {
    var p := PlanRun(mode, cfg, proxyLines, usernameLines, scanned);
    ModeNames(p.mode);
  }

  /** `modeToName` and `validModes` agree on every mode. */
  lemma ModeNames(m: string)
    requires m in KnownModes
    ensures ModeToName(m) != "Unknown"
    ensures m == "6" <==> m !in ValidModes
    ensures m in ValidModes ==> ModeToName(m) == GeneratorName(ValidModes[m])
    ensures m == "6" ==> ModeToName(m) == "Check from file"
  {
  }
}
