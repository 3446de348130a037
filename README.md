# GPU Ops Platform core, modelled in Dafny

This project models the in-memory core of the GPU Ops Platform: the daemon's health-check engine,
the scheduler tick that drives it, the GPU registration ledger, the GPU manager's device table, the
Starlark policy engine's pool matching and ranking, the command-line client's argument handling,
and the health-status encoding of the metrics package. Each part has its own module:

| module | file | models |
|---|---|---|
| `Wrappers` | wrappers.dfy | Go's `(T, error)` and Python's `Optional` as `Result` / `Option` |
| `Decimal` | decimal.dfy | Go's `%d` and `strconv.Atoi` on a 64-bit platform, with their round trip |
| `Health` | health.dfy | `pkg/health`: check registry, result store, the three classifiers, `RunCheck` |
| `Metrics` | metrics.dfy | `UpdateHealthCheckStatus`: gauge value of a status and its two labels |
| `Daemon` | daemon.dfy | `cmd/gputld`: the mock `GPUManager`, `Initialize`, one `RunHealthChecks` tick |
| `Registration` | registration.dfy | `pkg/registration`: the ledger keyed by the decimal GPU id |
| `Devices` | devices.dfy | `pkg/gpu`: the `Manager` table of GPUs by id |
| `Policy` | policy.dfy | `python/starlark_engine/engine.py`: registries, matching, score, ranking |
| `Cli` | cli.dfy | `cmd/gputl`: global-option scan, register-option scan, command dispatch |

Objects whose maps the source updates in place (`HealthMonitor`, `Registry`, `Manager`,
`GPUOpsModule`) are classes whose methods reassign `map` fields. Each method's `ensures` ties the
new map to a function of the old one (`Registered`, `Removed`, `WithStatus`, `RefreshedOn`,
`StoreAfter`, ...). The lemmas beside those functions state what the source promises: lookups
after each update, "nothing else changes", idempotence and undo. Loops over Go maps pick the next
key nondeterministically (`:|`), because Go leaves map iteration order unspecified. The proofs
therefore hold for every iteration order.

Telemetry and thresholds are `real`. The policy score is kept in integer tenths. Clock readings
are a parameter `now: int`, and a nil or zero `time.Time` is `None`. A result message is a
datatype that carries the reported quantities rather than their `%.1f` text.

Two behaviours of the code worth knowing:
- A failed device lookup inside `RunCheck` returns an `unhealthy` result but does not store it.
  The write comes after the early return (pkg/health/health.go:126-135).
- A zero power limit or zero total memory is not turned into an `unknown` status. The code
  divides without a guard, so the model requires a non-zero denominator instead.

## Model

| member | source | states |
|---|---|---|
| `Health.CheckTemperature` | pkg/health/health.go:164-187 | value is the temperature and threshold the critical one; unhealthy iff temp >= critical, degraded iff warning <= temp < critical, healthy iff below both |
| `Health.CheckPower` | pkg/health/health.go:190-214 | with limit non-zero, value is the draw and threshold the warning one; the three tiers are exactly the inclusive comparisons of powerW/limitW*100 against critical, then warning |
| `Health.CheckMemory` | pkg/health/health.go:217-244 | threshold is 100 - warning; the code's "available percent <= 100 - c" tests are proved to be exactly "percent used >= c", giving the three tiers over percent used |
| `Health.Evaluate` | pkg/health/health.go:143-154 | status is unknown iff the check type is not temperature/power/memory, and then the result is the zero-valued unknown result for that check name and GPU |
| `Health.RunCheckOutcome` | pkg/health/health.go:112-161 | unregistered check -> "not registered" error; disabled -> "disabled" error; failed lookup -> Ok unhealthy result carrying the lookup error; otherwise Ok of the classification |
| `Health.HealthMonitor.constructor` | pkg/health/health.go:70-77 | a new monitor has no checks and no results and keeps the given device source |
| `Health.HealthMonitor.RegisterCheck` | pkg/health/health.go:80-85 | the registry becomes the old one with the config inserted or overwritten under its name, nothing else changes |
| `Health.HealthMonitor.GetCheck` | pkg/health/health.go:88-97 | the stored config, or a not-found error for an absent name |
| `Health.HealthMonitor.ListChecks` | pkg/health/health.go:100-109 | one entry per registry entry: every listed config is the stored one, names are distinct, every name is listed |
| `Health.HealthMonitor.RunCheck` | pkg/health/health.go:112-161 | returns `RunCheckOutcome`; the store gains the result under `"name:id"` exactly when the check is registered, enabled and the lookup succeeded, and is unchanged otherwise |
| `Health.HealthMonitor.GetLatestResult` | pkg/health/health.go:247-256 | the stored result under the `"%s:%d"` key, or a no-result error when none is stored |
| `Health.HealthMonitor.GetAllResults` | pkg/health/health.go:259-268 | the copy built by the loop has exactly the store's keys and values |
| `Health.ResultKeyInjective` | pkg/health/health.go:157 | `"%s:%d"` keys are injective although check names may contain ':' (the decimal suffix never does) |
| `Health.LatestAfterStore` | pkg/health/health.go:247-256 | after storing under (check, GPU), `GetLatestResult` of that pair returns the result and every other pair reads as before |
| `Decimal.AtoiItoa` | pkg/registration/registration.go:44 | `strconv.Atoi` reads back every 64-bit int that `%d` wrote |
| `Decimal.ItoaInjective` | pkg/registration/registration.go:44 | distinct ints have distinct `%d` texts, so decimal keys identify GPUs |
| `Decimal.Atoi` | cmd/gputl/main.go:63 | a parsed value is within Go's 64-bit `int` range and comes from a non-empty text |
| `Decimal.AtoiIff` | cmd/gputl/main.go:63 | `strconv.Atoi(s)` returns n iff n is a 64-bit int and s is an optional sign ('-' only for n <= 0, '+' or none only for n >= 0), then zeros, then the canonical digits of abs(n), and nothing else |
| `Decimal.AtoiOfSpelling` | cmd/gputl/main.go:63 | every such spelling of a 64-bit int is accepted and read as that int |
| `Decimal.AtoiSpelling` | cmd/gputl/main.go:63 | every accepted text is such a spelling of the returned int |
| `Decimal.AtoiExamples` | cmd/gputl/main.go:63 | " 5", "5a", "+", "" and "1_000" are rejected; "+007" reads 7 and "-0" reads 0 |
| `Metrics.HealthStatusValue` | pkg/metrics/metrics.go:171-181 | 1.0 iff "healthy", 0.5 iff "degraded", 0.0 iff "unhealthy", -1.0 iff any other string |
| `Metrics.StatusValueRoundTrip` | pkg/metrics/metrics.go:171-181 | the gauge value of each of the four tiers decodes back to that tier |
| `Metrics.StatusValueDecreasing` | pkg/metrics/metrics.go:172-181 | healthy > degraded > unhealthy > every other string |
| `Metrics.ToInt32` | pkg/metrics/metrics.go:166-167 | `rune(x)` is the 32-bit signed value congruent to x modulo 2^32 |
| `Metrics.GpuIdLabel` | pkg/metrics/metrics.go:166-167 | the `gpu_id` label as written is a single character |
| `Metrics.GpuIdLabelSmallIds` | pkg/metrics/metrics.go:166-167 | for ids 0..9 the label equals the decimal text of the id |
| `Metrics.GpuIdLabelIsDigitOnlyBelowTen` | pkg/metrics/metrics.go:166-167 | in the 32-bit range the label is a decimal digit iff 0 <= id <= 9 |
| `Metrics.GpuIdLabelOfTen` | pkg/metrics/metrics.go:166-167 | GPU 10 gets the label ":" where its decimal text is "10" |
| `Metrics.GpuIdLabelWraps` | pkg/metrics/metrics.go:166-167 | ids 2^32 apart share a label |
| `Metrics.DecimalGpuIdLabelInjective` | pkg/metrics/metrics.go:166-167 | the intended decimal label distinguishes every pair of GPUs |
| `Metrics.HealthCheckSample` | pkg/metrics/metrics.go:165-184 | labels are exactly gpu_id and check_name; the value decodes to the status for the three tiers and to unknown otherwise, whatever the GPU or check |
| `Daemon.MockGetGPU` | cmd/gputld/main.go:29-41 | the mock lookup never fails and returns an online, registered GPU with the requested id |
| `Daemon.MockGetAllGPUs` | cmd/gputld/main.go:44-58 | the mock list is exactly one GPU: id 0, online, registered, equal to `GetGPU(0)` |
| `Daemon.WithDefaultChecks` | cmd/gputld/main.go:89-114 | the registry gains exactly the three default names; every other entry is unchanged |
| `Daemon.DefaultChecksAre` | cmd/gputld/main.go:89-114 | after `Initialize` on an empty registry: temperature (75, 85, 10 s), power (80, 95, 60 s), memory (80, 95, 30 s), all enabled and filed under their names |
| `Daemon.Daemon.constructor` | cmd/gputld/main.go:69-78 | the daemon's monitor is fresh and empty and shares the daemon's mock manager |
| `Daemon.Daemon.Initialize` | cmd/gputld/main.go:80-117 | the registry becomes `WithDefaultChecks` of the old one |
| `Daemon.Report` | cmd/gputld/main.go:184-188 | a successful result pushes its status once, followed by an alert carrying its message iff the status is unhealthy |
| `Daemon.RunListedChecks` | cmd/gputld/main.go:174-190 | the inner loop emits `GpuEvents` and leaves the store at `StoreAfter`: disabled checks are not run, failing ones skipped, later checks still run |
| `Daemon.RunHealthChecksTick` | cmd/gputld/main.go:171-192 | the outer loop lists the registry once per eligible GPU, emits `TickEvents` and leaves the store at `TickResults` |
| `Daemon.Daemon.RunHealthChecks` | cmd/gputld/main.go:170-192 | one tick over the manager's GPU list, with the same events and store as `RunHealthChecksTick` |
| `Daemon.OncePerEnabledCheck` | cmd/gputld/main.go:174-177 | on an eligible GPU each registered enabled check's status is pushed exactly once, and no other name's status is pushed |
| `Daemon.GpuEventsPushStatus` | cmd/gputld/main.go:177-184 | every event of a GPU's share is about that GPU, and every push carries the status `RunCheck` returns for an enabled check of that name |
| `Daemon.GpuEventsAlerts` | cmd/gputld/main.go:186-188 | an alert comes right after each "unhealthy" push and nowhere else |
| `Daemon.TickEventsEligible` | cmd/gputld/main.go:172-173 | a tick only emits events about GPUs that are online and registered |
| `Daemon.StoreAfterAtKey` | cmd/gputld/main.go:175-181 | after one GPU's checks, a listed check that stores holds its classification; every other key agrees with the store before |
| `Daemon.TickResultsAtKey` | cmd/gputld/main.go:171-181 | after a tick, key (n, id) holds the classification iff some eligible GPU has that id and `RunCheck` stores the pair; otherwise it is as before (failed lookups store nothing) |
| `Daemon.TickResultsOtherKey` | cmd/gputld/main.go:171-181 | a tick leaves every key that is not a `"%s:%d"` key unchanged |
| `Daemon.MockAlwaysRunnable` | cmd/gputld/main.go:29-41 | the mock reports non-zero power limit and memory, so every registry can run on it |
| `Daemon.MockDefaultsHealthy` | cmd/gputld/main.go:33-37 | with the mock telemetry every default check classifies healthy (35 < 75, 4% < 80, 0% < 80) |
| `Daemon.AllHealthyShare` | cmd/gputld/main.go:184-188 | when every enabled check classifies healthy, a GPU's share of a tick is only "healthy" pushes and no alert |
| `Daemon.MockTickAllHealthy` | cmd/gputld/main.go:171-191 | a tick of a freshly initialised daemon pushes "healthy" once per default check on GPU 0 and raises no alert |
| `Registration.NewRecord` | pkg/registration/registration.go:50-60 | the new record carries the caller's fields, the registration time, "gputl", "active" and no health-check time |
| `Registration.KeyInjective` | pkg/registration/registration.go:44 | distinct GPU ids have distinct ledger keys |
| `Registration.Lookup` | pkg/registration/registration.go:81-92 | the record under the id's decimal key, or not-found |
| `Registration.LookupAfterRegister` | pkg/registration/registration.go:40-63 | after registering, the id looks up as the new record and every other id as before |
| `Registration.LookupAfterRemove` | pkg/registration/registration.go:66-78 | after unregistering, the id is not found and every other id looks up as before |
| `Registration.RemoveUndoesRegister` | pkg/registration/registration.go:66-78 | unregistering a freshly registered id restores the ledger |
| `Registration.LookupAfterStatus` | pkg/registration/registration.go:138-151 | `UpdateStatus` changes only status and last health check of its record |
| `Registration.LookupAfterHealthCheck` | pkg/registration/registration.go:154-166 | `UpdateLastHealthCheck` changes only the last health check of its record |
| `Registration.RegisteredKeepsKeysMatch` | pkg/registration/registration.go:44-60 | registering keeps every record filed under the decimal text of its own id |
| `Registration.RemovedKeepsKeysMatch` | pkg/registration/registration.go:70-76 | removing keeps the remaining records filed under their own ids |
| `Registration.UpdatesKeepKeysMatch` | pkg/registration/registration.go:142-164 | both field updates keep every record filed under its own id |
| `Registration.ListHoldsEveryRecord` | pkg/registration/registration.go:95-104 | `List` returns one entry per record, and exactly the stored records |
| `Registration.PoolSelectionIsExact` | pkg/registration/registration.go:107-118 | `FindByPool(p)` finds exactly the records whose pool is p |
| `Registration.TagSelectionIsExact` | pkg/registration/registration.go:121-135 | `FindByTag(t)` finds exactly the records whose tags contain t |
| `Registration.Registry.constructor` | pkg/registration/registration.go:33-37 | a new ledger is empty |
| `Registration.Registry.Register` | pkg/registration/registration.go:40-63 | a present id fails with already-registered and the ledger is unchanged; otherwise the ledger becomes `Registered(old, ...)` |
| `Registration.Registry.Unregister` | pkg/registration/registration.go:66-78 | an absent id fails with not-registered and the ledger is unchanged; otherwise exactly that key is removed |
| `Registration.Registry.Get` | pkg/registration/registration.go:81-92 | returns `Lookup` of the ledger |
| `Registration.Registry.List` | pkg/registration/registration.go:95-104 | the loop selects every record once |
| `Registration.Registry.FindByPool` | pkg/registration/registration.go:107-118 | the loop selects each record in the pool once |
| `Registration.Registry.FindByTag` | pkg/registration/registration.go:121-135 | the loop selects each tagged record once, however often the tag repeats |
| `Registration.Registry.AppendIfTagged` | pkg/registration/registration.go:126-132 | the inner loop appends the record once iff the tag is among its tags (the break) |
| `Registration.Registry.UpdateStatus` | pkg/registration/registration.go:138-151 | an absent id fails and nothing changes; otherwise the ledger becomes `WithStatus(old, ...)` |
| `Registration.Registry.UpdateLastHealthCheck` | pkg/registration/registration.go:154-166 | an absent id fails and nothing changes; otherwise the ledger becomes `WithHealthCheck(old, ...)` |
| `Devices.MockDevice` | pkg/gpu/gpu.go:58-68 | the discovered device is id 0, online, not registered, with no registration time, 24 GB total and 0 GB used |
| `Devices.Lookup` | pkg/gpu/gpu.go:78-88 | the device under the id, or not-found for an absent id |
| `Devices.RefreshKeepsIdentity` | pkg/gpu/gpu.go:108-114 | the refresh sets temperature 35, utilisation 0, power 10 and the update time, and every other field is unchanged |
| `Devices.RefreshIdempotent` | pkg/gpu/gpu.go:108-114 | refreshing twice at the same time is refreshing once |
| `Devices.UnregisterIdempotent` | pkg/gpu/gpu.go:136-148 | unregistering twice is unregistering once |
| `Devices.UnregisterUndoesRegister` | pkg/gpu/gpu.go:120-148 | register then unregister equals unregister alone, and leaves the flag false |
| `Devices.RegisterTwice` | pkg/gpu/gpu.go:120-133 | registering again only moves the registration time |
| `Devices.OperationsKeepConsistent` | pkg/gpu/gpu.go:52-148 | every operation keeps each device under its own id, registered iff it has a registration time |
| `Devices.Manager.constructor` | pkg/gpu/gpu.go:44-49 | a new manager has no devices |
| `Devices.Manager.Discover` | pkg/gpu/gpu.go:52-75 | returns the one mock device and files it under id 0, replacing what was there; other ids are untouched |
| `Devices.Manager.GetGPU` | pkg/gpu/gpu.go:78-88 | returns `Lookup` of the table |
| `Devices.Manager.GetAllGPUs` | pkg/gpu/gpu.go:91-100 | one entry per device: each is the stored device, ids distinct, every id listed |
| `Devices.Manager.UpdateMetrics` | pkg/gpu/gpu.go:103-117 | always returns nil error and the table becomes `RefreshedOn` every id |
| `Devices.Manager.Register` | pkg/gpu/gpu.go:120-133 | an absent id fails and nothing changes; otherwise the flag is set and the registration time is now |
| `Devices.Manager.Unregister` | pkg/gpu/gpu.go:136-148 | an absent id fails and nothing changes; otherwise the flag is cleared and the registration time removed |
| `Policy.CreateGpuPool` | python/starlark_engine/engine.py:150-166 | each absent keyword takes its default (name 'default', memory 0, temp 100, 'adaptive', 0.9, empty lists); a single type string becomes a one-element list |
| `Policy.DefaultPool` | python/starlark_engine/engine.py:150-166 | with no keywords the pool is the documented default pool |
| `Policy.IsSubstringIff` | python/starlark_engine/engine.py:277 | Python's `t in s` holds iff s splits as a + t + b |
| `Policy.SomeTypeOccursIff` | python/starlark_engine/engine.py:277 | `any(t in name for t in types)` iff some listed type occurs in the name |
| `Policy.TypeAdmitsIff` | python/starlark_engine/engine.py:275-278 | the type filter passes iff the list is empty or some type occurs in the name (the exact-name test is subsumed) |
| `Policy.MatchesPoolIff` | python/starlark_engine/engine.py:273-289 | a GPU matches iff the type filter passes, memory >= minimum, temperature <= maximum (equal allowed) and its pool is empty or the pool's name |
| `Policy.MeetsRequirementsIff` | python/starlark_engine/engine.py:291-305 | each present key is one inclusive bound; required tags must form a subset of the GPU's tags; absent keys impose nothing |
| `Policy.AdmittedByList` | python/starlark_engine/engine.py:262-271 | deciding over the list of all pools is deciding over the registry |
| `Policy.AdmittedNeedsPool` | python/starlark_engine/engine.py:262-271 | with no pools nothing is admitted; an admitted GPU meets the requirements |
| `Policy.ScoreTenths` | python/starlark_engine/engine.py:320-340 | the score in tenths always lies in 7..20 (0.7..2.0) |
| `Policy.ScorePreferences` | python/starlark_engine/engine.py:320-340 | online adds exactly 5 tenths; more memory or a cooler GPU never lowers the score |
| `Policy.Insert` | python/starlark_engine/engine.py:317 | insertion keeps the entries and adds the new one (multiset) |
| `Policy.InsertRanked` | python/starlark_engine/engine.py:317 | inserting an entry that is later than every equal-score entry keeps the list ranked |
| `Policy.Rank` | python/starlark_engine/engine.py:317 | the ranking is a permutation of its input |
| `Policy.RankRanked` | python/starlark_engine/engine.py:317 | ranking entries in input order gives non-increasing scores with ties in input order (stable `sort(reverse=True)`) |
| `Policy.CandidatesAreAdmitted` | python/starlark_engine/engine.py:309-314 | every collected entry is an admitted input GPU with its score and position, in input order |
| `Policy.AdmittedAreCandidates` | python/starlark_engine/engine.py:309-314 | every admitted input GPU is collected |
| `Policy.InOrderIsValues` | python/starlark_engine/engine.py:103-105 | listing the pools in insertion order gives each stored pool, one entry per name |
| `Policy.FindAfterRegister` | python/starlark_engine/engine.py:89-101 | a lookup after registering returns the new value; other names are unaffected |
| `Policy.GpuOps.constructor` | python/starlark_engine/engine.py:85-87 | both registries start empty |
| `Policy.GpuOps.RegisterPool` | python/starlark_engine/engine.py:89-92 | inserts or overwrites by name; an overwritten pool keeps its place in insertion order; schedules unchanged |
| `Policy.GpuOps.RegisterSchedule` | python/starlark_engine/engine.py:94-97 | inserts or overwrites by name; pools unchanged |
| `Policy.GpuOps.GetPool` | python/starlark_engine/engine.py:99-101 | the stored pool, or None when absent |
| `Policy.GpuOps.GetSchedule` | python/starlark_engine/engine.py:107-109 | the stored ruleset, or None when absent |
| `Policy.GpuOps.GetAllPools` | python/starlark_engine/engine.py:103-105 | every registered pool once, in registration order |
| `Policy.Engine.constructor` | python/starlark_engine/engine.py:119-123 | the engine starts with empty registries |
| `Policy.Engine.EvaluateAllocation` | python/starlark_engine/engine.py:262-271 | true iff some registered pool matches and the requirements are met |
| `Policy.Engine.FirstFit` | python/starlark_engine/engine.py:267-271 | the loop answers true iff some listed pool fits |
| `Policy.Engine.GetRecommendedGpus` | python/starlark_engine/engine.py:307-318 | the result is the admitted GPUs, as a permutation of the collected entries, ranked by non-increasing score with ties in input order |
| `Cli.UnlexLex` | cmd/gputl/main.go:195-208 | the scan's tokens spell the arguments back exactly: it only groups them |
| `Cli.LastUrlDefault` | cmd/gputl/main.go:191 | with no URL option the URL is the default `http://localhost:8080` |
| `Cli.LastUrlIsLast` | cmd/gputl/main.go:197-201 | the last `--daemon-url=V` or `--daemon-url V` wins |
| `Cli.FilteredIsSubsequence` | cmd/gputl/main.go:205-207 | the kept arguments are the original ones with some deleted, in order |
| `Cli.ParseGlobalOptions` | cmd/gputl/main.go:191-208 | the loop's outcome is `Interpret(Lex(args))`: help anywhere stops with usage, else the last URL and the plain arguments (a trailing `--daemon-url` is kept, the value after `--daemon-url` is taken verbatim) |
| `Cli.Split` | cmd/gputl/main.go:245 | `strings.Split` always returns at least one piece |
| `Cli.JoinSplit` | cmd/gputl/main.go:245 | joining the pieces of a split with the separator gives the text back |
| `Cli.SplitPiecesClean` | cmd/gputl/main.go:245 | no piece of a split contains the separator |
| `Cli.SplitJoin` | cmd/gputl/main.go:245 | splitting joined separator-free pieces gives the pieces back |
| `Cli.ParseRegisterOptions` | cmd/gputl/main.go:228-247 | the pairwise loop yields `Options(filtered)`: the last `--name`/`--pool`/`--tags` among complete pairs, with defaults "", "default", no tags |
| `Cli.LastSetIsLast` | cmd/gputl/main.go:232-246 | the last pair with a given option decides its value |
| `Cli.LastSetAbsent` | cmd/gputl/main.go:228-230 | with no pair for an option it keeps its default |
| `Cli.TrailingOptionIgnored` | cmd/gputl/main.go:233-235 | an option with no value after it is ignored |
| `Cli.AppendedPair` | cmd/gputl/main.go:239-246 | an unknown option consumes its value and changes nothing; a known one overrides all earlier ones; `--tags` splits on ',' |
| `Cli.ClientUrl` | cmd/gputl/main.go:26-29 | an empty URL falls back to the default, any other is kept |
| `Cli.StatusAction` | cmd/gputl/main.go:61-70 | an empty id lists all GPUs; an unparsable id is an invalid-id error; otherwise the status of that id |
| `Cli.Run` | cmd/gputl/main.go:182-276 | `main` decides exactly `Decide(os.Args)` |
| `Cli.UsageCases` | cmd/gputl/main.go:183-204 | fewer than two arguments give usage with exit 1; a standalone `--help` after the command gives usage with exit 0 |
| `Cli.HelpAsCommand` | cmd/gputl/main.go:188-274 | `--help` in the command position is an unknown command, not the help option |
| `Cli.DefaultUrlWithoutOption` | cmd/gputl/main.go:191-208 | without `--daemon-url` or `--help` the default URL is used and the command sees every argument |
| `Cli.CommandCases` | cmd/gputl/main.go:213-259 | register and unregister without arguments fail with "GPU ID required"; status without arguments lists all GPUs; an unparsable id fails |

## Left out

- Timestamps: `CheckResult.Timestamp` is not modelled. Registration and device times are the
  caller's clock reading `now`, and no particular value of `time.Now()` is asserted.
- Message text: the `%.1f` formatting of result messages and `GPU.Info` are not modelled. A
  message is a datatype carrying its quantities.
- Floating point: telemetry and thresholds are exact reals, so IEEE rounding, Inf and NaN are not
  modelled. The policy score is exact in integer tenths.
- Health.CheckPower: requires a non-zero power limit, because the code divides unguarded and Go
  would produce Inf or NaN.
- Health.CheckMemory: requires non-zero total memory, for the same reason.
- Health.RunCheckOutcome: requires (`CanRun`) that a check it would classify has a non-zero
  denominator on the device, for the same reason.
- Health.HealthMonitor.RunCheck: requires `CanRun`, as above.
- Daemon.RunListedChecks: requires every enabled check to be runnable on the device, as above.
- Daemon.RunHealthChecksTick: requires every enabled check to be runnable on every eligible
  device, as above.
- Daemon.Daemon.RunHealthChecks: requires the same of the manager's device list.
- Locks and concurrency: every `sync.RWMutex`-guarded method is one atomic step. The
  `HealthMonitor.Start/Stop`, `Manager.StartMonitoring/Stop` and ticker/cancellation loop of
  `RunHealthChecks` are not modelled. Only one tick is.
- Aliasing: the model returns and stores values, so later mutation through a shared pointer,
  slice or map is not captured. The code shares state in these places:
  - `Manager.GetGPU` and `GetAllGPUs` hand out the map's own `*GPU` pointers, and a health-check
    config registered by pointer stays shared with its caller.
  - Registry `Get`, `List`, `FindByPool` and `FindByTag` return the map's own `*GPURecord`
    pointers (pkg/registration/registration.go:81-92, 95-135). `UpdateStatus` and
    `UpdateLastHealthCheck` write through that pointer (pkg/registration/registration.go:148-149,
    164), so a record fetched earlier sees later updates; the model's records are snapshots.
  - `Register` keeps the caller's `tags` slice and `metadata` map by reference
    (pkg/registration/registration.go:55-56), so the caller can change a stored record afterwards.
  - `HealthMonitor.GetLatestResult` and `GetAllResults` hand out the stored `*CheckResult`
    pointers (pkg/health/health.go:247-268).
- The registry load at the start of `Initialize` (cmd/gputld/main.go:84), `SaveToFile` and
  `LoadFromFile` are file I/O and are not modelled. pkg/config/config.go is not part of this model.
- HTTP: the daemon's servers, handlers and shutdown are not modelled, and neither are the client's
  requests. `Cli.Run` returns the request the client would make (an `Action`) instead of sending
  it. Printing the usage text and `log.Fatal` are represented only by the `Usage` and `Fatal`
  outcomes.
- Prometheus: metric registration, `UpdateGPUMetrics`, `RecordAPIMetrics` and the gauge `Set`
  are not modelled. `HealthCheckSample` is the labelled value that would be set.
- Policy loading (`load_policy`, `load_all_policies`, `_parse_policy_simple`), the argparse
  `main` and the `print` calls of the policy engine are file and console I/O and are not modelled.
- The optimisation, health-check and schedule-rule factories of the policy engine only build
  dictionaries and records. They are represented by the `Directive`, `ScheduleRule` and
  `ScheduleRuleset` data, not as operations.
- Policy requirements are typed (`min_memory`, `max_temp` as numbers, `tags` as a list). Python's
  behaviour on other value types (a string of tags, `None`) and on unknown keys is not modelled.
- Policy.Engine.GetRecommendedGpus: the in-place `list.sort` is modelled by the stable ranking
  function `Rank`, not as an in-place sort of a mutable list.
- Devices.Manager.Discover: its error result is always nil and is not returned.

## Findings

| source | as written | input that shows it | evidently intended | confidence | as-written member | corrected member |
|---|---|---|---|---|---|---|
| pkg/metrics/metrics.go:166-167 | the `gpu_id` label is `string(rune(gpuID + '0'))`, one character | GPU 10 gets the label ":" instead of "10"; ids 2^32 apart share a label | the decimal text of the id, which differs for every GPU | high; not executed | `Metrics.GpuIdLabelOfTen` | `Metrics.DecimalGpuIdLabelInjective` |
