# Failover controller of the order-separation API

The `Backup` variant of the order-separation REST API keeps two accounts of
the same hosted document database: a primary and a fallback. Every route
handler hands its database work to `executeWithFallback`, which runs it on
the active account's handle. When the primary reports quota exhaustion, the
controller switches to the fallback and retries the work there once. When a
later operation succeeds on the fallback, or a periodic health check finds
the primary reachable again, it switches back to the primary.

This project models that controller in Dafny and proves its behaviour.

- `quota_errors.dfy` (module `QuotaErrors`): the shape of a thrown error
  (an optional message; a code that is absent, a number or something else),
  `Includes` (substring search), and `IsQuotaError`, the classifier of the
  catch block.
- `failover.dfy` (module `Failover`): the two backends and their handles,
  and the observable events: an operation run on a handle, a probe of the
  primary with its result, a logged switch. It defines a reference state
  machine over those events (`Allowed`, `Consistent`, `Replay`). It models
  the two guarded switches, one call of `executeWithFallback` (`Execute`,
  built from its branches) and one health-check tick (`HealthTick`), all as
  pure functions of the active backend. Each comes with the properties the
  server relies on.
- `controller.dfy` (module `FailoverController`): the process-wide state as
  a class `Controller` with fields `current` (`currentDBName`) and `db` (the
  active handle), plus a ghost `trace` of every event since start-up. Its
  methods update the fields in place, exactly as the server does. Each is
  proved to produce the state and events of the matching pure function. The
  class invariant says two things: `db` is the handle of `current`, and the
  whole history replays on the reference machine from the primary to
  `current`.
- `runs.dfy` (module `FailoverRuns`): any sequence of calls and ticks. It is
  proved by induction that every run obeys the reference machine, that the
  operation runs once per call plus once per switch to the fallback (so at
  most twice per call), and that returns to the primary are exactly the
  successful probes.
- `scenarios.dfy` (module `FailoverScenarios`): concrete errors and
  operations. These cover the gRPC quota message, a plain not-found error,
  failover, exhaustion of both accounts, and a pass-through failure. The
  method `OutageAndRecovery` drives a `Controller` object through an outage
  and a recovery, using only the methods' contracts.

Modelling choices:

- A caller's operation is a function from handle to outcome
  (`Ok(value)` or `Thrown(error)`). One call runs it at most once per
  handle, so a function can give every outcome the server can see.
- The primary probe (a one-document read of `pedidosAtivos`) is a boolean
  parameter: whether that read would succeed. It is recorded as a `Probed`
  event only when it is actually issued.
- A thrown error is returned as `Thrown`; nothing is raised.
- `error.code === 8` holds only for the number 8. A string code is modelled
  as `OtherCode` and never matches.
- The fatal exit at start-up when a credential file is missing becomes the
  fact that both handles exist. The constructor starts on the primary.

## Model

| member | source | states |
|---|---|---|
| `QuotaErrors.Includes` | Backup/server.js:95-96 | `includes` is true exactly when the pattern occurs at some position of the message |
| `QuotaErrors.IsQuotaError` | Backup/server.js:95-97 | an error is a quota error exactly when its message exists and contains "quota" or "RESOURCE_EXHAUSTED", or its code is the number 8 |
| `QuotaErrors.QuotaSurvivesWrapping` | Backup/server.js:95-96 | adding text before or after the message of a quota error keeps it a quota error |
| `QuotaErrors.MissingMessage` | Backup/server.js:95-97 | without a message, only code 8 makes an error a quota error |
| `QuotaErrors.CapitalisedQuotaIsNotQuota` | Backup/server.js:95-96 | matching is case-sensitive: "Quota exceeded" without code 8 is not a quota error |
| `QuotaErrors.TextualCodeIsNotQuota` | Backup/server.js:97 | a string code "8" is not strictly equal to 8 |
| `Failover.SwitchToFallback` | Backup/server.js:62-68 | ends on the fallback; logs a switch only when coming from the primary; changes nothing when already on the fallback |
| `Failover.SwitchToPrimary` | Backup/server.js:70-76 | ends on the primary; logs a switch only when coming from the fallback; changes nothing when already on the primary |
| `Failover.SwitchIdempotent` | Backup/server.js:62-76 | switching a second time to the same backend does nothing and logs nothing |
| `Failover.ProbeAndRecover` | Backup/server.js:84-90 | probe issued on the fallback; back on the primary exactly when the probe succeeds; the operation is not run |
| `Failover.RunOnce` | Backup/server.js:79-106 | the single-run paths (success on the primary, error rethrown): the outcome is the operation's own, the state is kept |
| `Failover.SucceedOnFallback` | Backup/server.js:81-93 | success on the fallback: the result is kept whatever the probe does, one run, then a probe; primary again exactly when the probe succeeds |
| `Failover.RetryOnFallback` | Backup/server.js:99-104 | quota on the primary: run on the primary, switch, run once on the fallback; that outcome is final; no probe |
| `Failover.Execute` | Backup/server.js:79-108 | the first run is on the active handle; one or two runs in all; the events obey the reference machine and replay to the new state; the caller gets the last run's outcome; two runs only by ending on the fallback |
| `Failover.HealthTick` | Backup/server.js:111-122 | on the fallback: probe, then primary exactly when the probe succeeds; on the primary: no event, no change; no outcome escapes |
| `Failover.SuccessOnPrimary` | Backup/server.js:81-93 | success on the primary: result unchanged, one run, no probe, state stays primary |
| `Failover.SuccessOnFallback` | Backup/server.js:84-93 | success on the fallback: original result always returned; probe success moves to the primary, probe failure stays and is not seen |
| `Failover.QuotaFailureOnPrimary` | Backup/server.js:99-104 | quota failure on the primary: state becomes fallback, exactly one retry on the fallback handle, its outcome returned, no probe |
| `Failover.OtherFailure` | Backup/server.js:99-106 | a non-quota failure, or any failure on the fallback, is returned unchanged after one run, with no switch and no probe |
| `Failover.ProbeIsolation` | Backup/server.js:84-93 | the probe's result never changes what the caller gets |
| `Failover.Transitions` | Backup/server.js:79-108 | from the primary the call moves to the fallback exactly on a quota failure there; from the fallback it moves to the primary exactly on a success followed by a successful probe |
| `Failover.RecoveryIsUsed` | Backup/server.js:72-73 | after a recovery, the next call runs on the primary handle |
| `FailoverController.Controller.constructor` | Backup/server.js:34-53 | starts on the primary with the primary handle and an empty history |
| `FailoverController.Controller.SwitchToFallback` | Backup/server.js:62-68 | updates name and handle together as `Failover.SwitchToFallback` says, keeping the invariant |
| `FailoverController.Controller.SwitchToPrimary` | Backup/server.js:70-76 | updates name and handle together as `Failover.SwitchToPrimary` says, keeping the invariant |
| `FailoverController.Controller.ProbeAndRecover` | Backup/server.js:84-90 | the probe-and-switch-back block, with the state and events of `Failover.ProbeAndRecover` |
| `FailoverController.Controller.ExecuteWithFallback` | Backup/server.js:79-108 | returns the outcome, and reaches the state and history, that `Failover.Execute` gives for the state before the call |
| `FailoverController.Controller.HealthTick` | Backup/server.js:111-122 | reaches the state and history that `Failover.HealthTick` gives |
| `FailoverRuns.Serve` | Backup/server.js:79-122 | one call or tick obeys the reference machine and replays to its new state |
| `FailoverRuns.RunReplays` | Backup/server.js:62-122 | any sequence of calls and ticks obeys the reference machine: every run on the active handle, probes only on the fallback, every logged switch a real change |
| `FailoverRuns.ServeCounts` | Backup/server.js:79-122 | one call runs the operation once plus once per switch to the fallback (at most one); a tick never runs it; each return to the primary comes from a successful probe |
| `FailoverRuns.RunCounts` | Backup/server.js:79-122 | over any run: runs = calls + switches to the fallback; between one and two runs per call; returns to the primary = successful probes |
| `FailoverScenarios.QuotaMessageIsQuota` | Backup/server.js:95-97 | "8 RESOURCE_EXHAUSTED: quota exceeded" is a quota error |
| `FailoverScenarios.NotFoundIsNotQuota` | Backup/server.js:95-97 | "document not found" without a code is not a quota error |
| `FailoverScenarios.FailoverScenario` | Backup/server.js:99-104 | quota failure on the primary, success on the fallback: fallback's result, fallback active, two runs |
| `FailoverScenarios.ExhaustedFallbackScenario` | Backup/server.js:99-106 | quota failure while on the fallback: rethrown unchanged after one run, fallback stays |
| `FailoverScenarios.NotFoundScenario` | Backup/server.js:99-106 | a not-found failure on the primary is rethrown unchanged; no switch, no retry |

## Left out

- Route handlers, `agoraBrasilMs`, CORS, static files, JSON parsing and `app.listen`: HTTP and time-zone plumbing around the controller, with no failover logic.
- Firebase initialisation and reading the credential files: foreign I/O. The fatal exit on failure is modelled only as the fact that both handles exist.
- The Firestore client itself, including the probe query on `pedidosAtivos`: an opaque library. The operation is a function from handle to outcome, and the probe is a boolean.
- Operations and probes that never finish: both are assumed to complete. In the source the caller's success waits on the probe, so a probe that hangs holds back a successful result; `Failover.ProbeIsolation` speaks only of the value returned, not of when it is returned.
- The side effects of an operation: a partial write on the primary before its quota error, and how it duplicates with the retry, are not modelled.
- `operationName` and the text of the log lines: diagnostics only. Each logged switch is kept, as a `Switched` event.
- Timer scheduling and concurrency: `setInterval`'s five-minute period and interleaving at `await` points are not modelled. Each call and each tick is one sequential step on the shared state. So the model does not cover a state change by another request between running the operation and reading `currentDBName`.
- Thrown values other than error objects with a string message or none. A thrown `null` or `undefined` makes the catch block itself throw a TypeError, because `error.message` is read before `?.` applies. A thrown string or number has no `message` and no `code`: it is classed as not a quota error and rethrown unchanged; the model sees it as `Error(None, NoCode)`, so it cannot say which value was rethrown. A message that is not a string reaches that value's own `includes`: an array message goes to `Array.prototype.includes`, so `['quota']` counts as a quota error, and only a message with no `includes` method makes the catch block throw. Messages are always modelled as strings.
