# Wusa username prober — a Dafny model

Wusa is a command-line tool written in Go (`main.go`). It hunts for unclaimed
usernames. It either generates candidates at random or reads them from a
file. A dedup gate makes sure each candidate is probed at most once. The
probe asks the validation endpoint up to three times, backing off between
attempts, and classifies the answer as available, taken or censored.
Available names are appended to `valid.txt` and announced on a Discord
webhook, with up to five POST attempts under a retry policy that honours
`Retry-After` on HTTP 429.

This project models that pipeline in Dafny and proves properties of it:

| file | module | models |
|---|---|---|
| `common.dfy` | `Common` | `Option`, `time.Duration` units, `int64` wrap-around |
| `text.dfy` | `Text` | `strings.TrimSpace`, `strconv.Atoi` |
| `input.dfy` | `Input` | the proxy-list and usernames-file line filters |
| `generators.dfy` | `Generators` | the five candidate generators |
| `dedup.dfy` | `DedupGate` | the `checked` set behind `checkedLock` |
| `prober.dfy` | `Prober` | `processUsername`: retry loop, classification, side effects |
| `webhook.dfy` | `Webhook` | `sendToWebhook`: attempts and retry delays |
| `setup.dfy` | `Setup` | mode fallback, webhook choice, thread clamp, proxy binding, `modeToName` |
| `dispatch.dfy` | `Dispatch` | the worker loops over the shared state |

Modelling conventions:

- Every HTTP exchange is an oracle answer passed in as a parameter. For the
  probe this is an `Attempt`, which is a transport error or a status with a
  decoded body. For the webhook it is a `HookAttempt`.
- Every `rand.Intn(n)` is a draw passed in, with `0 <= draw < n`.
- Every `time.Sleep` is recorded as a duration in nanoseconds, Go's unit.
  Nothing actually waits.
- The side effects of a probe are an ordered trace of `Effect`s. The trace
  is applied to the shared `Sinks`: the four counters, the lines this run
  appends to `valid.txt` and the webhook calls made.
- Workers run concurrently. The dedup gate is one critical section, so
  the gate calls happen one after another, and a run is the sequence of
  names in gate order. The probe itself runs outside the lock, though, so
  the effects of different workers' probes interleave. `Dispatch.Run`
  applies each admitted probe's trace as one step. `Dispatch.JoinedRun`
  then covers every interleaving of those traces once all probes have
  finished: the counters are the same, and the log and the webhook calls
  hold the same entries, possibly in another order.

Behaviour of the code that is easy to misread:

- The probe loop stops only on an error-free response with status 200, not
  on any well-formed response. It also sleeps `1 << i` seconds after the
  third failed attempt. The last response is decoded whatever its status.
- `valid` is incremented before the name is appended and before the
  webhook is called, not after.
- A failure to build the webhook request retries at once, without the
  200–499 ms wait that a send failure gets.
- `rand.Intn(300)` is below 300, so the random waits are 200–499 ms and
  300–599 ms.
- The webhook is called synchronously by the worker that found the name.
- An empty proxy list panics at start-up rather than falling back to the
  default transport (see Findings).

## Model

| member | source | states |
|---|---|---|
| Common.WrapInt64 | main.go:335 | the `int64` value of a product is in range, congruent to the exact value modulo 2^64, and equal to it when no overflow occurs |
| Text.TrimSpace | main.go:95 | the trimmed line has no white space at either end and is no longer than the line |
| Text.TrimSpaceIsTrim | main.go:95 | trimming removes only white space, and only from the two ends |
| Text.TrimSpaceUnique | main.go:467 | any string obtained by cutting white space from both ends down to non-space is the `TrimSpace` result |
| Text.TrimSpaceOfTrimmed | main.go:467 | a line with no surrounding white space is left unchanged |
| Text.TrimSpaceIdempotent | main.go:467 | trimming twice equals trimming once |
| Text.Atoi | main.go:334 | an accepted `Retry-After` value is an optional sign followed by digits and fits in `int64`; a negative result needs a leading `-` |
| Text.AtoiUnsigned | main.go:334 | a bare non-empty digit string is read as its value when that fits in `int64`, and rejected otherwise |
| Text.AtoiPlus | main.go:334 | a leading `+` does not change the result |
| Text.AtoiMinus | main.go:334 | a leading `-` negates the digits' value, which is accepted down to the `int64` minimum and rejected below it |
| Text.DigitsValueLeadingZero | main.go:334 | a leading zero does not change the value of a digit string |
| Text.AtoiLeadingZero | main.go:334 | leading zeros are accepted and ignored, with or without a sign |
| Text.AtoiItoa | main.go:334 | every `int64` written in decimal is read back by `Atoi` as itself |
| Input.UsernameEntry | main.go:467-470 | a line contributes its trimmed text exactly when that text is non-empty |
| Input.LoadUsernames | main.go:466-471 | the usernames list is no longer than the file, and every entry is non-empty with no surrounding white space |
| Input.LoadUsernamesContents | main.go:466-471 | every non-blank line appears trimmed in the list, and every entry is the trimmed text of some line |
| Input.LoadUsernamesAppend | main.go:466-471 | the filter works line by line, so it keeps input order and distributes over concatenation |
| Input.LoadUsernamesIdempotent | main.go:466-471 | filtering the filtered list changes nothing |
| Input.WithScheme | main.go:97-99 | the entry ends up with a scheme; one that had `http://` or `https://` is unchanged, otherwise `http://` is prepended |
| Input.SchemedEntry | main.go:97-99 | prepending the scheme keeps the entry non-empty with no surrounding white space |
| Input.ProxyEntry | main.go:95-101 | a proxy line contributes one entry exactly when it is not blank; the entry has a scheme; a line that already had one contributes its trimmed text |
| Input.NormaliseProxies | main.go:85-107 | every loaded proxy has a scheme and no surrounding white space, and there are no more proxies than lines |
| Input.NormaliseProxiesAppend | main.go:94-102 | the proxy list keeps input order and distributes over concatenation of lines |
| Input.NormaliseIsSchemedFilter | main.go:94-102 | the proxy list is the usernames filter followed by `WithScheme`, entry by entry, with the same length |
| Input.SchemedLinesKept | main.go:95-100 | a line whose trimmed text has a scheme appears in the proxy list exactly as trimmed |
| Input.NormaliseProxiesIdempotent | main.go:94-102 | normalising the proxy list twice equals normalising it once |
| Generators.ToLowerAscii | main.go:153 | on ASCII input, `unicode.ToLower` maps each upper-case letter to the same letter in lower case (code point plus 32) and leaves every other ASCII character unchanged |
| Generators.Pick | main.go:144-146 | each generated character is drawn from its slot's alphabet |
| Generators.Gen5N | main.go:141-148 | `gen5N` yields five decimal digits |
| Generators.Gen5L | main.go:150-158 | `gen5L` yields five lower-case letters |
| Generators.Gen4Mixed | main.go:160-192 | each `gen4Mixed` layout has its digit and letter positions |
| Generators.Gen4L | main.go:194-201 | `gen4L` yields four lower-case letters |
| Generators.Gen3N | main.go:203-210 | `gen3N` yields three decimal digits |
| Generators.PickCovers | main.go:144-146 | every string that fits the slot alphabets is produced by some in-range draws |
| Generators.PickInjective | main.go:144-146 | when no alphabet repeats a character, different draws give different strings |
| Generators.Gen5NBijective | main.go:141-148 | `gen5N` reaches every five-digit string, each from exactly one draw vector |
| Generators.Gen3NBijective | main.go:203-210 | `gen3N` reaches every three-digit string, each from exactly one draw vector |
| Generators.Gen4LBijective | main.go:194-201 | `gen4L` reaches every four-letter string, each from exactly one draw vector |
| Generators.Gen5LIsPick | main.go:153-156 | lower-casing the first letter has no effect, so `gen5L` is five independent letter draws |
| Generators.Gen5LBijective | main.go:150-158 | `gen5L` reaches every five-letter string, each from exactly one draw vector |
| Generators.MixedLayoutFromName | main.go:164-189 | the layout can be read from the output: only layout 1 starts with a digit, and only layout 0 has a digit second |
| Generators.Gen4MixedInjective | main.go:164-191 | distinct (layout, draws) pairs give distinct names |
| Generators.Gen4MixedCovers | main.go:164-191 | every name of one of the three layouts is produced |
| DedupGate.TestAndSet | main.go:217-223 | a name is admitted exactly when it was not seen before, and it is seen afterwards either way |
| DedupGate.Drain | main.go:235-241 | after a list passes the gate, the seen set is the old set plus the list's names |
| DedupGate.DrainSnoc | main.go:235-241 | one more name at the end is admitted exactly when it was not seen and is not earlier in the list |
| DedupGate.DrainIsFirstOccurrences | main.go:230-245 | from an empty set, the gate admits each distinct name once, at its first occurrence, in list order |
| DedupGate.DrainAdmits | main.go:230-245 | admitted names are pairwise distinct, and a name is admitted exactly when it is in the list and was not seen before |
| DedupGate.DrainExactlyOnce | main.go:230-245 | each listed unseen name is admitted exactly once and no other name is admitted; the count is the number of distinct unseen names |
| Prober.RetrySchedule | main.go:253-259 | one to three GETs; the loop stops at the first error-free 200; the surviving response is the last one made; sleep `k` is `1 << k` seconds and also follows the third failed attempt |
| Prober.Classify | main.go:260-297 | the outcome is available, taken or censored exactly when the surviving response decodes with code 0, 1 or 2; every other path fails |
| Prober.ClaimMessageInjective | main.go:302 | different names give different webhook messages |
| Prober.ProcessUsername | main.go:248-298 | `checked` is counted first and exactly once; only a failed probe stops there |
| Prober.ProcessUsernameEffects | main.go:260-297 | `checked` grows by one; one of valid, taken or censored grows, matching the outcome; the valid log and webhook calls grow by this name exactly when it is available; the counter-consistency invariant is kept |
| Prober.AvailableEffectOrder | main.go:281-290 | an available name is counted in `valid` first, then appended to `valid.txt`, then announced; a snapshot in between sees `valid` raised before the log line, and the log line before the webhook call |
| Prober.ProcessUsernameByCode | main.go:260-297 | the exact effect on the sinks for code 0, 1 and 2, and that any other ending changes only `checked`, whatever the final status |
| Prober.AllTransportErrors | main.go:253-263 | an oracle that never answers gives three GETs with sleeps of 1, 2 and 4 seconds, and only `checked` moves |
| Prober.FirstAcceptedNoSleep | main.go:253-257 | an accepted first GET stops the loop without sleeping |
| Prober.LastResponseDecoded | main.go:253-267 | with no accepted attempt, all three GETs are made, three sleeps follow, and the third response is the one decoded |
| Webhook.RetryAfterDelay | main.go:331-338 | the 429 delay fits in `int64`; it is three seconds when the header does not parse, and otherwise the parsed seconds times `time.Second`, wrapped to `int64` |
| Webhook.SleepAfter | main.go:307-341 | the wait after an attempt that did not deliver: none exactly after a build failure; `200 + draw` ms (200–499 ms) after a send failure; the `Retry-After` delay after a 429; `300 + draw` ms (300–599 ms) after any other status |
| Webhook.Send | main.go:300-345 | one to five attempts; the first 200 or 204 ends the loop and means delivered; a failed delivery makes all five attempts; the sleeps are exactly the policy's sleeps for the attempts that did not deliver |
| Webhook.SleepAfterPolicy | main.go:307-341 | a build failure retries without sleeping; a send failure waits `200 + draw` ms, within 200–499 ms; a 429 waits the `Retry-After` delay; any other status waits `300 + draw` ms, within 300–599 ms |
| Webhook.JitterDrawsDistinct | main.go:315-341 | for a random wait, different draws give different waits |
| Webhook.JitterDrawCovers | main.go:315-341 | every whole-millisecond wait in the random range comes from a draw `rand.Intn(300)` can return |
| Webhook.RetryAfterSeconds | main.go:331-336 | for any header that `Atoi` reads as `n`, the recorded sleep is exactly `n` seconds when that fits in an `int64` (a negative one returns at once), and a wrapped value otherwise |
| Webhook.RetryAfterSpellings | main.go:331-336 | `n`, `+n` and `0n` all wait `n` seconds |
| Webhook.RetryAfterFallback | main.go:332-337 | a missing or unparsable `Retry-After` waits three seconds |
| Webhook.DeliveredIffSomeSuccess | main.go:306-325 | delivery succeeds exactly when one of the five outcomes is a 200 or 204 |
| Webhook.RateLimitedThenNoContent | main.go:322-338 | a 429 with `Retry-After: 5` then a 204 gives two attempts, one five-second wait, and delivery |
| Webhook.AlwaysServerError | main.go:339-342 | a server error on every attempt gives five attempts and five waits of 300–599 ms, with no delivery |
| Webhook.AlwaysBuildError | main.go:306-311 | a URL `http.NewRequest` rejects gives five attempts, no waits and no delivery |
| Setup.WebhookMap | main.go:439-446 | `webhookMap` has exactly the six menu keys, the `validModes` keys plus "6", each mapped to its configured URL |
| Setup.ModeToName | main.go:567-584 | the name is "Unknown" exactly for a string that is not one of the six menu keys |
| Setup.ModeToNameInjective | main.go:567-584 | distinct menu keys have distinct names |
| Setup.ClampThreads | main.go:508-514 | the thread count is at least one; a scanned count of one or more is kept, and anything else becomes one |
| Setup.BindProxiesAsWritten | main.go:544-545 | worker `i` gets `proxies[i % len(proxies)]`; the program panics exactly when the list is empty and at least one worker is started |
| Setup.EmptyProxyListPanics | main.go:85-107 | a missing proxy file, or one whose lines are all blank, makes start-up panic whatever thread count is entered |
| Setup.BindTransports | main.go:558-560 | corrected binding: round-robin over the proxies, and the default client for every worker when there are none |
| Setup.BindTransportsRefines | main.go:558-560 | the corrected binding matches the written one wherever the written one does not panic |
| Setup.RoundRobin | main.go:544-545 | workers `i` and `i + len(proxies)` share a proxy, and every proxy is used once there are enough workers |
| Setup.ResolveMode | main.go:488-493 | the mode in effect is a menu key; a key is kept, and anything else falls back to "1" |
| Setup.PlanRun | main.go:431-559 | mode 6 reads the usernames file and any other input uses the matching generator; the webhook is the mode's entry; "lines loaded" is the list length only in mode 6; the worker count is the clamped thread count; start-up panics exactly when no proxy is loaded, and otherwise worker `i` is bound to loaded proxy `i mod n`, for `n` loaded proxies |
| Setup.PlanConsistent | main.go:488-496 | the module shown is never "Unknown"; a mistyped mode runs `gen5N`; the generator started matches its menu name; mode 6 uses the pronounceable-5L webhook |
| Setup.ModeNames | main.go:431-446 | `validModes` holds the five generator keys and `modeToName` names each of them after its generator |
| Dispatch.WorkerStep | main.go:213-227 | an iteration marks the name seen; a name seen before changes nothing; a new name applies exactly its probe's effects |
| Dispatch.Run | main.go:230-245 | after a run the seen set is the old set plus every name taken |
| Dispatch.StartInv | main.go:36-48 | the start-up state satisfies the shared-state invariant |
| Dispatch.WorkerStepInv | main.go:217-296 | every iteration, its probe applied whole, keeps the invariant: `checked` equals the number of seen names; classified counts never exceed `checked`; `valid` equals the log length and the number of webhook calls; each name has as many calls with its claim message as lines in the log; no name is logged twice |
| Dispatch.RunInv | main.go:230-245 | a whole run keeps the invariant |
| Dispatch.RunPerformsEffects | main.go:230-245 | the sequential run applies exactly the admitted probes' traces, in gate order |
| Dispatch.PerformCounts | main.go:261-296 | one effect moves its own counter by one, or adds its name to the log, or adds its call to the webhook calls, and changes nothing else |
| Dispatch.PerformAllCounts | main.go:261-296 | after any sequence of effects, each counter has grown by the number of its effects, and the log and the calls by the names and calls the effects carry |
| Dispatch.ReorderedEffects | main.go:261-296 | reordering the effects leaves the counters unchanged, and the log and the calls change only in order |
| Dispatch.JoinedRun | main.go:213-296 | once every probe has finished, any interleaving of the admitted probes' effects gives the sequential run's counters, the same log and call contents up to order, and the invariant |
| Dispatch.RunChecked | main.go:230-245 | `checked` grows by exactly the number of names the gate admits |
| Dispatch.RunLogGrows | main.go:282-290 | the valid log only grows, and only by names the gate admitted during the run |
| Dispatch.FileModeRun | main.go:539-555 | in file mode from start-up, after the join and for any interleaving: `checked` equals the number of distinct usernames; the counters are consistent; no name is logged twice by the run; each logged name has exactly one webhook call with its claim message, and there are no other calls; every logged name comes from the file |
| Dispatch.OrderIndependentCount | main.go:549-555 | however the workers interleave the jobs, the same number of names is probed |

## Left out

- HTTP, JSON and the network are not modelled. Each GET and POST is an oracle answer passed in; `json.Marshal` of the payload and its escaping are not modelled.
- Prober.Classify: takes the body's `code` as an integer. Go's truncation of the JSON `float64` to `int` (main.go:277) is not modelled, so a code such as 0.5 is not covered.
- Goroutines, channels and the `WaitGroup` are not modelled as such. Gate calls are a sequence, because the gate is one critical section. Probe effects are any interleaving of the probes' traces, covered once all probes have finished.
- Dispatch.WorkerStepInv: applies a probe's whole trace as one step. States with probes in flight are not covered; there `checked` lags the seen set. `Dispatch.JoinedRun` covers the state after every probe has finished.
- Dispatch.RunInv: holds of the sequential run, whose log and calls are in gate order. In the program they are in completion order and need not match each other position by position, so the invariant relates them only by counts. `Dispatch.JoinedRun` carries it over to every interleaving.
- Prober.ProcessUsernameEffects: counters are unbounded naturals. The `uint64` wrap-around of the atomic counters is not modelled, since it needs 2^64 probes.
- `time.Sleep` and `rand.Intn` are not performed. Sleeps are recorded as durations, and random values are draws passed in. `rand.Seed` and the clock are left out.
- Webhook.Send: the caller supplies draws for all five attempts, not just for the attempts that use one. Go consumes a random value only on the attempts that wait randomly.
- File I/O is not modelled: opening `config.json`, `proxies.txt`, the usernames file and `valid.txt`. A failed append to `valid.txt` is ignored by the code, and the model always records the line.
- `bufio.Scanner` line splitting and its 64 KiB line limit are not modelled. The filters take the lines the scanner yields.
- Generators.ToLowerAscii: takes ASCII input only. Go's `unicode.ToLower` also lowers non-ASCII capitals such as 'À'; main.go:153 only ever passes 'a' to 'z'.
- Text.TrimSpace: covers only the Latin-1 white-space characters. Other Unicode white space (U+1680, U+2000–U+200A, U+2028, U+2029, U+202F, U+205F, U+3000) is not treated as space.
- `newHttpClientWithProxy` (main.go:109-139) is not modelled: URL parsing, the cookie jar, the fallback to the default client and the transport timeouts. A worker's transport is named only by its proxy string.
- Console output, `clearScreen`, `printBanner`, `updateTitle` and `setConsoleTitle` are display only and are left out.
- `loadConfig` is left out: decoding `config.json` into the six webhook URLs. The model takes the decoded `Config`.
- The lines already in `valid.txt` before the run are not modelled. The file is opened for appending and never truncated (main.go:285), so the same name can appear twice across runs; the "logged once" properties are about one run's appends.
- Go's `int` is taken as 64 bits, as on 64-bit platforms. On a 32-bit platform `strconv.Atoi` accepts a smaller range, and the `Retry-After` delay changes with it.
- Generated mode runs forever. The model covers every finite prefix of a run.
- The usernames-file prompt (main.go:452-455) is not modelled. Every mode asks for a file name, but only mode 6 opens and reads the file.
- Lines are modelled as sequences of Unicode code points, which assumes valid UTF-8 input. Go's `strings.TrimSpace` and `strings.HasPrefix` work on the underlying bytes, so invalid UTF-8 is not covered.

## Findings

| source | as written | input that shows it | evidently intended | confidence | as-written member | corrected member |
|---|---|---|---|---|---|---|
| main.go:545 | every worker is bound to `proxies[i%len(proxies)]`, which is an integer division by zero when the proxy list is empty | a missing `proxies.txt`, or one with only blank lines, and any thread count: start-up panics before any probe | fail-open start-up (`loadProxies` only warns "No proxies loaded."), with every worker on the default client | high; not executed | Setup.EmptyProxyListPanics | Setup.BindTransports |
