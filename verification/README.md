# Boot and admission core: a verified model

Dafny 4.11 models, with proofs, of the parts of the backend and dashboard whose correctness is a
matter of protocol or of grammar rather than of a single branch. `dafny verify dfyconfig.toml`
checks everything.

| files | what they model |
|---|---|
| `InflightProtocol.dfy`, `InflightAccounting.dfy`, `InflightReaper.dfy`, `InflightBudget.dfy` | the aggregate in-flight request-body budget: admission, exactly-once release, re-pricing of chunked bodies, the stall reaper |
| `Text.dfy`, `Numerals.dfy`, `BodyLimits.dfy` | white space, JavaScript number reading, the body-limit grammar and the budget derived from it |
| `EnvValidation.dfy`, `HttpTimeouts.dfy`, `ConfigurationReads.dfy`, `DatabaseSelection.dfy` | environment validation, and what the server does with an environment that passed it: its HTTP timeouts, all its other numbers and flags, its database |
| `EnvLayers.dfy` | layered environment loading, in the application and in the migration command line |
| `EngineRegistries.dfy` | the identity-guarded registry of live engines |
| `OrderedSets.dfy`, `BulkRecipients.dfy` | insertion-ordered sets and the bulk-recipients parser |

## How the budget is modelled

A request's middleware closure touches the shared counter and its own variables only, so every
handler is a function on that pair (`Cell`), and the system steps by replacing one record and the
counter. A run is any sequence of arrivals, socket bytes, timer firings, `end`, message completion,
terminal events of any kind in any order, and passing of time. An interval timer never fires early;
how late it fires is unconstrained except where a lemma says `Punctual`. `InflightBudget.dfy` holds
the same code as objects with mutable fields, in the order the source has it (the counter really
does overshoot inside `ReconcileUndeclared`), and proves each method to be one step of the protocol.

A request is the `n`-th one admitted; its socket is a counter that only grows. Declared and chunked
bodies are told apart as section 6.3 of RFC 9112 does, a declared length winning when both headers
are there, as in the code.

## Where the code and its description differ

- The budget's description says it tracks the body bytes in flight. A poll that finds a chunked
  message complete counts nothing (`ChunkedChargeCoversBodyIff`: a poll leaves the body covered exactly
  when the message was not complete or the charge covered it already). The watch ends there or at
  the `end` event, and the charge of that moment stands until the release (`FinalChunkedCharge`,
  `UnwatchedChargeIsFinal`; a run for every size: `UncountedChunkedBody`). "Received" means on the
  socket since admission: body bytes that came in one segment with the headers are in no counter.
- The stall timeout is 15 s after the last byte. With exact timers a silent sender is released at
  15 s after the poll that counted its last bytes, no earlier and no later
  (`SilentSenderReleasedExactly`; for late timers: `SilentSenderReleaseWindow`), so it outlasts the
  timeout exactly when its last bytes came between two firings, by the time to the next one
  (`OutlastsTimeoutIff`), 5 s at most (`ReaperBoundIsTight`).
- Body limits are described as positive numbers, but the pattern accepts `0`. The derived budget is
  then 0 and every request with a body is refused in every state (`BodiesRefusedIff`,
  `ZeroLimitGivesZeroBudget`).
- Validation is meant to keep a timeout from being disabled silently. A value of white space only
  passes as unset and is then read as not-a-number (`ValidatedEqualsApplied`, `BlankTimeoutIsAccepted`).
  The same holds for every number that is read with a bare `parseInt` (`EveryReadIsValidated`), and
  for none of those whose reader has a guard of its own (`GuardedReadsAreExact`).
- Validation is meant to keep a PostgreSQL name from being opened as a SQLite file, and an illegal
  schema name from reaching the database. It checks trimmed values while the configuration uses them
  as they stand: `"postgres "` is validated as PostgreSQL and runs SQLite (`RunsPostgresIff`,
  `SqliteFileIsBareIff`, `PaddedTypeOpensBareFile`). The schema in use is a legal name exactly when it
  has no padding (`SchemaIsIdentifierIff`), and the search path option made of it is intact exactly
  when it holds no separating character (`SearchPathIsIntactIff`; for `"app "`: `PaddedSchemaIsUsed`).
- The command line is meant to have the application's precedence. Before the first run there is no
  generated file, and it lacks the values that run would have written (`CliBeforeFirstRunIff`,
  `CliBeforeFirstRunDiffers`).
- The record of host-supplied keys is right for one load. After a second load in one process it also
  holds every key that a file supplied (`ReloadRecordIff`, `ReloadMistakesFileForHost`).

The first run promises to persist the host's PostgreSQL values and does so, provided the file is read
back as written (`ConnectionValuesArePersisted`, `FlagsArePersisted`; JSON quoting escapes `"` and `\`, and whether dotenv
undoes that is not part of this model). It makes no such promise for the selections, and
`SurvivesHostLossIff` says which values outlive the host's environment.

## Model

| member | source | states |
|---|---|---|
| InflightAccounting.StepKeepsInv | src/config/inflight-body-budget.ts:130-223 | every step of every request keeps the global invariant: counter = sum of live reservations, within the budget, each request priced and watched as it should be |
| InflightAccounting.ExpectedBodyIsWatched | src/config/inflight-body-budget.ts:169-219 | in every reachable state a live request that is neither complete nor ended and has declared more bytes than its socket received, or is chunked, has its reaper set; and only such live requests as are not ended and not counted in full have |
| InflightAccounting.HandlerKeeps | src/config/inflight-body-budget.ts:157-217 | each handler moves the counter by exactly the change of its own request's share, and an overshoot during re-pricing is undone before it returns |
| InflightAccounting.Conservation | src/config/inflight-body-budget.ts:139-167 | in every reachable state the counter is the sum of the unreleased reservations |
| InflightAccounting.BudgetSafety | src/config/inflight-body-budget.ts:139-144 | after every completed step of every run the aggregate is between 0 and the budget; a negative budget admits nothing |
| InflightAccounting.AdmissionDecision | src/config/inflight-body-budget.ts:110-142 | in every reachable state: empty requests are admitted, oversized declarations refused, a declared length or, for chunked bodies, 1 MiB capped by the budget and at least a byte is admitted iff it fits beside the live reservations |
| InflightAccounting.RefinesSimpleController | src/config/inflight-body-budget.ts:102-225 | every run, with the counter forgotten, is a run of the controller that recomputes the sum for every decision |
| InflightAccounting.SimpleRunIsUnique | src/config/inflight-body-budget.ts:102-225 | and it is the only run that controller has on those events |
| InflightAccounting.SameAdmissions | src/config/inflight-body-budget.ts:139-142 | both controllers admit and refuse the same requests at every point of every run |
| InflightAccounting.RefusesEveryBodyIff | src/config/inflight-body-budget.ts:131-142 | no reachable state admits a request that reserves anything iff the budget is 0 |
| InflightAccounting.LedgerBalances | src/config/inflight-body-budget.ts:154-167 | exactly-once release: everything a request's own steps added to and took from the counter sums to its reservation while live and to 0 afterwards, for any multiset and order of terminal events, reaps and aborts |
| InflightAccounting.ReleasedStaysReleased | src/config/inflight-body-budget.ts:146-162 | after release no later event or poll changes a request's reservation, timer or fate |
| InflightAccounting.ReleasedLedgerIsZero | src/config/inflight-body-budget.ts:154-162 | from its release on, in every later state, a request's own steps have left the counter as they found it |
| InflightAccounting.Quiescence | src/config/inflight-body-budget.ts:157-167 | once every admitted request has had one terminal event, nothing is in flight |
| InflightAccounting.ChunkedReservation | src/config/inflight-body-budget.ts:180-193 | a chunked request is charged max(opening reservation, bytes its last counting poll saw) throughout its life, and the charge never decreases |
| InflightAccounting.ChunkedBodiesFit | src/config/inflight-body-budget.ts:105-110 | counted bytes of all live chunked requests fit the budget together, and so do that many opening reservations |
| InflightAccounting.ChunkedChargeCoversBodyIff | src/config/inflight-body-budget.ts:195-207 | a poll that does not abort leaves a chunked body charged for all received since admission iff the message was not complete or the charge covered it already |
| InflightAccounting.UnwatchedChargeIsFinal | src/config/inflight-body-budget.ts:146-152 | a request whose timer is cleared is never watched again and keeps its charge in every later state |
| InflightAccounting.FinalChunkedCharge | src/config/inflight-body-budget.ts:200-219 | short of a release, the watch on a chunked body ends only with `end` or a poll that finds it complete; the charge before that step stands for good |
| InflightAccounting.UncountedChunkedBody | src/config/inflight-body-budget.ts:200-203 | for every budget and size a run that ends with a live, complete, unwatched chunked body of that size charged the opening reservation alone |
| InflightReaper.StallReapedOnlyWhenIdle | src/config/inflight-body-budget.ts:195-217 | soundness: a request is destroyed for stalling only by its own poll, with its body outstanding, after a window of at least 15000 ms without a byte |
| InflightReaper.MovingSenderSurvives | src/config/inflight-body-budget.ts:45-53 | a sender that, while its request is live, moves in every 15000 ms window or has its body in is never stall-reaped |
| InflightReaper.SilentSenderIsReaped | src/config/inflight-body-budget.ts:169-219 | completeness: a silent sender that is not complete, not ended and has sent fewer bytes than it declared, or is chunked, is released within 4 * (5000 + lateness) ms, whatever the other requests do |
| InflightReaper.SilentSinceAdmissionIsReaped | src/config/inflight-body-budget.ts:169-219 | with no byte at all after admission, within 3 * (5000 + lateness) ms |
| InflightReaper.SilentSendersHoldNothing | src/config/inflight-body-budget.ts:11-18 | silent connections cannot pin the budget: for any set of requests that each hold nothing or stay silent, after the bound the counter is what all the others hold, whatever those do |
| InflightReaper.NewcomersHaveTheBudget | src/config/inflight-body-budget.ts:45-53 | if silent senders hold all that is held at some state, after the bound the counter is what later admissions hold |
| InflightReaper.NotReapedEarly | src/config/inflight-body-budget.ts:195-217 | however late the timers, a silent request is not destroyed for stalling before 15000 ms from its last counted progress, or from the firing that counts its last bytes |
| InflightReaper.ReleasedByReapTime | src/config/inflight-body-budget.ts:195-217 | with timers late by at most `late` it is released once that instant is 3 * late past, or 4 * late when its last bytes were uncounted |
| InflightReaper.SilentSenderReleaseWindow | src/config/inflight-body-budget.ts:45-55 | for every lateness: a silent request that nothing else ends is held up to that instant and not longer than those delays after it |
| InflightReaper.SilentSenderReleasedExactly | src/config/inflight-body-budget.ts:45-55 | with exact timers a silent request that nothing else ends is released iff that instant is past |
| InflightReaper.OutlastsTimeoutIff | src/config/inflight-body-budget.ts:54-55 | the instant is later than 15000 ms from now iff bytes are uncounted and the next firing lies ahead; never by more than 5000 ms |
| InflightReaper.ReaperBoundIsTight | src/config/inflight-body-budget.ts:54-55 | for every budget and declared length above one byte, a run with exact timers in which the reservation is held 20000 ms after the last byte |
| InflightBudget.InflightBodyBudget.Middleware | src/config/inflight-body-budget.ts:110-223 | admission from the header values: a usable length is reserved as it stands; without one, or with a text that `Number` cannot read, a chunked body reserves min(1 MiB, budget), at least a byte, and is watched, and any other request reserves nothing and is admitted; exactly the protocol's arrival step, an admitted request joining the books last |
| InflightBudget.InflightBodyBudget.ReleaseOnce | src/config/inflight-body-budget.ts:157-162 | the release handler is the protocol's release |
| InflightBudget.InflightBodyBudget.ReconcileUndeclared | src/config/inflight-body-budget.ts:184-193 | the in-place re-pricing, with its release and abort past the budget, is the protocol's |
| InflightBudget.InflightBodyBudget.StallPoll | src/config/inflight-body-budget.ts:195-217 | the interval callback is the protocol's poll step and keeps the invariant |
| InflightBudget.InflightBodyBudget.OnTerminal | src/config/inflight-body-budget.ts:163-167 | each of the five terminal events is the protocol's terminal step |
| InflightBudget.InflightBodyBudget.OnEnd | src/config/inflight-body-budget.ts:219-219 | the `end` listener disarms the reaper and nothing else |
| InflightBudget.InflightBodyBudget.CurrentBytes | src/config/inflight-body-budget.ts:225-225 | the reported figure is the sum of the live reservations and within the budget |
| InflightBudget.BodiesRefusedIff | src/config/inflight-body-budget.ts:82-142 | the configured server refuses every body in every reachable state iff no positive integer is explicit and the limit denotes less than a byte |
| Numerals.NumberIff | src/config/inflight-body-budget.ts:231-231 | `Number` reads white space around nothing, around a decimal spelling or around a prefixed numeral, and nothing else |
| Numerals.DeclaredLengthOfSpelling | src/config/inflight-body-budget.ts:229-233 | with W before and k digits F after the point and exponent e: usable iff (W * 10^k + F) * 10^e / 10^k is a whole number from 0 to 2^53 - 1, and then that number, in any padding |
| Numerals.PrefixedLengthRoundTrip | src/config/inflight-body-budget.ts:229-233 | hexadecimal, octal and binary digits behind their prefix are read as the number they stand for |
| Numerals.BlankLengthIsZero | src/config/inflight-body-budget.ts:231-232 | a blank length is 0 |
| Numerals.WordIsNoLength | src/config/inflight-body-budget.ts:231-232 | any other text without a digit is unusable |
| Numerals.DeclaredLengthRoundTrip | src/config/inflight-body-budget.ts:229-233 | a length printed in digits is read back exactly up to 2^53 - 1 and unusable beyond |
| BodyLimits.ScannerIffPattern | src/config/inflight-body-budget.ts:70-74 | the parser accepts exactly the language of the resolver's pattern |
| BodyLimits.ResolvedLimitAlwaysParses | src/config/bootstrap-security.ts:97-101 | the resolver returns the trimmed text that scans, or "25mb"; the parser's fallback is unreachable after it, and it never changes the bytes the parser would have read |
| BodyLimits.LimitBytes | src/config/inflight-body-budget.ts:73-73 | with W before and k digits F after the point: the greatest whole b with b * 10^k <= (W * 10^k + F) * unit |
| BodyLimits.UnitTable | src/config/inflight-body-budget.ts:33-41 | the bytes of each of the six units in every letter case; nothing else is a unit, and no unit means bytes |
| BodyLimits.SpelledLimitBytes | src/config/inflight-body-budget.ts:70-74 | every spelling, in any padding, parses to what it says |
| BodyLimits.LimitRoundTrip | src/config/inflight-body-budget.ts:34-41 | for every n, unit in any letter case and optional space: parsing the printed form gives n * 1024^k |
| BodyLimits.BytesRoundTrip | src/config/inflight-body-budget.ts:70-74 | a printed n without a unit is n bytes |
| BodyLimits.ExplicitBudgetOfSpelling | src/config/inflight-body-budget.ts:82-87 | every decimal spelling of an explicit budget counts iff it writes a positive whole number, and then is that number |
| BodyLimits.BudgetIsZeroIff | src/config/inflight-body-budget.ts:82-89 | the resolved budget is 0 exactly when no positive integer is explicit and the limit denotes less than a byte |
| BodyLimits.ZeroLimitGivesZeroBudget | src/config/bootstrap-security.ts:91-101 | the limit "0" is such a limit |
| EnvValidation.ValidateEnv | src/config/env.validation.ts:12-222 | an error is reported for a rule and key exactly when that rule is violated there; no errors iff all rules hold |
| EnvValidation.CheckNumber | src/config/env.validation.ts:84-142 | the numeric checks accept exactly unset values and digit strings within the bounds that do not overflow to `Infinity` |
| EnvValidation.CheckRange | src/config/env.validation.ts:91-165 | reports exactly the keys of its list that are set to something other than a decimal integer within the bounds |
| EnvValidation.IdentifierGrows | src/config/env.validation.ts:60-60 | which characters a schema name may begin with, and which may be added up to 63 |
| EnvValidation.ReservedPrefixIff | src/config/env.validation.ts:64-64 | p, g in either case and an underscore |
| EnvValidation.BareNameIff | src/config/env.validation.ts:77-77 | no separator, and no database suffix in any letter case |
| ConfigurationReads.EveryReadIsValidated | src/config/configuration.ts:48-230 | every number read with a bare `parseInt` is, on an accepted environment, the one written within its bounds, or the default, or NaN for white space alone |
| ConfigurationReads.GuardedReadsAreExact | src/config/configuration.ts:42-46 | the three guarded readers, which differ elsewhere, yield the number written or the fallback on every accepted environment |
| ConfigurationReads.FlagReadsAgree | src/config/env.validation.ts:168-206 | an accepted flag means the same to `=== 'true'` and `!== 'false'` unless it is white space |
| DatabaseSelection.ReadIsValidatedIff | src/config/configuration.ts:124-140 | for every key, the configuration uses the validated text iff the value has no padding |
| DatabaseSelection.RunsPostgresIff | src/app.module.ts:136-154 | PostgreSQL runs iff the validator took the type for PostgreSQL and it has no padding |
| DatabaseSelection.Defaults | src/config/configuration.ts:126-140 | unset or empty: SQLite, its default file, the schema public |
| DatabaseSelection.AcceptedPostgresIsSound | src/config/env.validation.ts:36-54 | whenever PostgreSQL runs on an accepted environment its connection values are set and `synchronize` is off |
| DatabaseSelection.OptionIsIntactIff | src/database/data-source.ts:88-88 | split at ASCII white space, the start-up option is `-c` and `search_path=<schema>,public` iff the schema holds no such character |
| DatabaseSelection.SearchPathIsIntactIff | src/app.module.ts:168-205 | on an accepted environment the option is intact iff the schema in use holds no separator: always without padding, and never with padding of separators |
| DatabaseSelection.SchemaIsIdentifierIff | src/config/env.validation.ts:55-67 | the schema in use is a legal, unreserved identifier iff its value has no padding |
| DatabaseSelection.PaddedSchemaIsUsed | src/config/env.validation.ts:55-67 | "app" followed by a space is accepted; the schema in use is no identifier and its search path option falls apart |
| DatabaseSelection.SchemaIsInertInQuotes | src/config/env.validation.ts:55-57 | between quotes an accepted schema is read back as itself, before any text that does not begin with a quote |
| DatabaseSelection.SqliteFileIsBareIff | src/config/env.validation.ts:70-82 | exactly when an accepted environment that runs SQLite opens a bare name as its file |
| DatabaseSelection.PaddedTypeOpensBareFile | src/config/env.validation.ts:20-82 | such an environment: "postgres" followed by a space |
| HttpTimeouts.ApplyHttpTimeouts | src/config/http-timeouts.ts:32-46 | the three server fields and the report are the resolved timeouts |
| HttpTimeouts.ReadEqualsValidated | src/config/configuration.ts:73-76 | a validated number is read back as the number validation saw, or the default, and as NaN exactly for white space only; for every numeric key |
| HttpTimeouts.ValidatedEqualsApplied | src/config/http-timeouts.ts:32-46 | over every accepted environment, the timeouts applied are the numbers written or the defaults, with the exact NaN and bump cases |
| HttpTimeouts.AppliedTimeoutsAreSound | src/config/env.validation.ts:84-88 | all applied timeouts are positive and headers exceed keep-alive iff neither of the two decisive values is white space only |
| HttpTimeouts.BlankTimeoutIsAccepted | src/config/configuration.ts:68-77 | one space passes validation and disables the request timeout |
| HttpTimeouts.ResolvedIsStable | src/config/http-timeouts.ts:36-39 | applying the report again changes nothing; headers always clear a real keep-alive |
| HttpTimeouts.AcceptedBudgetIsUsed | src/config/configuration.ts:80-83 | an accepted explicit budget is exactly the number written, otherwise four body limits |
| EnvLayers.LoadEnvironment | src/config/load-env.ts:50-115 | the in-place clear, record and merges give the layered environment, write the generated file on a first run, and record exactly the host-supplied keys |
| EnvLayers.LoadCliEnv | src/database/load-cli-env.ts:14-20 | the command-line loader gives the same layers over the files that exist |
| EnvLayers.ProcessEnv.ClearBlankEnv | src/config/env-precedence.ts:70-77 | the loop deletes exactly the blank values of the listed keys |
| EnvLayers.LayerPrecedence | src/config/load-env.ts:10-16 | per key, for all hosts and files: host value unless a listed blank, else `.env` even when blank, else generated, else unset |
| EnvLayers.CliAgreesWithApp | src/database/load-cli-env.ts:6-13 | command line and application agree when the generated layer exists, and after the run that writes it |
| EnvLayers.CliBeforeFirstRunIff | src/database/load-cli-env.ts:14-20 | before the first run they agree on a key iff the host or `.env` decides it or no first run would write it |
| EnvLayers.CliBeforeFirstRunDiffers | src/database/load-cli-env.ts:6-20 | with nothing configured the application selects PostgreSQL and the command line nothing |
| EnvLayers.LoadIsIdempotent | src/config/load-env.ts:50-115 | loading again on the result, listed keys left blank by a file included, changes nothing |
| EnvLayers.BootMigrateReload | src/config/load-env.ts:23-116 | boot, migration and reload, run one after the other, end with the same environment; the two records are the host's keys, and those with the keys the files supply |
| EnvLayers.ReloadRecordIff | src/config/env-precedence.ts:79-103 | after a second load a key counts as host-supplied iff the host or a file supplies it |
| EnvLayers.ReloadMistakesFileForHost | src/config/env-precedence.ts:79-103 | a key from `.env` alone is not recorded by the first load and is by the second |
| EnvLayers.BlankForwardIsInvisible | src/config/env-precedence.ts:13-22 | a blank forward of a listed key is as good as no variable |
| EnvLayers.ComposeIsInvisible | docker-compose.yml:119-179 | with a blank for every variable the bundled compose file forwards, the container loads, and records as host-supplied, what the operator's own variables would give |
| EnvLayers.HostValueWins | src/config/env-precedence.ts:96-103 | a key recorded as host-supplied ends with the host's value for all file contents |
| EnvLayers.FileValueIgnoresHost | src/config/env-precedence.ts:79-89 | a key not so recorded ends with a value that depends on the files alone |
| EnvLayers.SurvivesHostLossIff | src/config/load-env.ts:67-114 | after a first run, when a boot without the host's variables comes to the same value |
| EnvLayers.ConnectionValuesArePersisted | src/config/load-env.ts:69-94 | non-empty connection values outlive the host's environment |
| EnvLayers.FirstRunFlags | src/config/load-env.ts:80-90 | for every host and `.env`: three flags are "true" iff that is the value in force, the certificate check is "false" iff that is |
| EnvLayers.FlagsArePersisted | src/config/load-env.ts:80-90 | a flag the host sets to "true" or "false" outlives the host's environment |
| EnvLayers.FirstRunDatabase | src/config/load-env.ts:81-85 | host, port and name in the file: the non-empty value in force or the fallback |
| EnvLayers.FirstRunCredentials | src/config/load-env.ts:83-86 | user, password and schema likewise |
| EnvLayers.FirstRunTuning | src/config/load-env.ts:91-98 | pool limits and credentials directory likewise |
| EnvLayers.FirstRunSelections | src/config/load-env.ts:79-108 | the selections are the same whatever host and `.env` say |
| EnvLayers.StorageTypeIsNotPersisted | src/config/load-env.ts:105-108 | a selection does not: s3 storage at the first boot leaves local storage in the file |
| EngineRegistries.SessionsAreIndependentCells | src/engine/engine-registry.service.ts:37-98 | over every trace each session behaves as one cell of its own |
| EngineRegistries.SupersededIsInert | src/engine/engine-registry.service.ts:79-98 | an engine replaced or removed and never set again is never live, and its teardown changes nothing |
| EngineRegistries.LateTeardownsDoNothing | src/engine/engine-registry.service.ts:13-17 | striking all its late teardowns from a trace leaves the same entries in the same order |
| EngineRegistries.LiveUntilDisplaced | src/engine/engine-registry.service.ts:79-86 | a live engine stays live until it is replaced, removed, cleared or torn down by its own pair |
| EngineRegistries.IdsAfterPut | src/engine/engine-registry.service.ts:41-43 | `set` keeps insertion order |
| EngineRegistries.IdsAfterRemove | src/engine/engine-registry.service.ts:49-51 | `delete` removes one id and keeps the order of the others |
| EngineRegistries.EngineRegistry.DeleteIfLive | src/engine/engine-registry.service.ts:93-98 | deletes and returns true exactly for the live engine |
| EngineRegistries.EngineRegistry.Sweep | src/engine/engine-registry.service.ts:65-75 | a tearing-down loop over the iterator visits exactly the initial entries, once each and in order, under any interference |
| EngineRegistries.SweptEnginesAreGone | src/engine/engine-registry.service.ts:69-98 | afterwards no visited engine that was not set again is live |
| EngineRegistries.NewcomersSurvive | src/engine/engine-registry.service.ts:69-98 | an engine newly set during the sweep and not displaced afterwards is live at its end |
| EngineRegistries.EngineRegistry.ActiveIds | src/engine/engine-registry.service.ts:120-127 | the live sessions in order, then the initializing ones that are not live, in order, each once |
| BulkRecipients.ParseBulkRecipients | dashboard/src/utils/bulkRecipients.ts:10-23 | the loop over the growing set computes the normalised, de-duplicated list |
| BulkRecipients.ParsedIsNormalForm | dashboard/src/utils/bulkRecipients.ts:4-9 | exactly the chat ids of the lines, duplicate-free, in first-occurrence order, each with '@', without line break, in normal form |
| BulkRecipients.ParsedRoundTrip | dashboard/src/utils/bulkRecipients.ts:10-23 | parsing the newline-joined result gives the same list |
| BulkRecipients.ParsedConcatenation | dashboard/src/utils/bulkRecipients.ts:10-23 | parsing two texts on separate lines is the first result followed by what the second adds |
| BulkRecipients.PhoneNumberParses | dashboard/src/utils/bulkRecipients.ts:19-20 | digits with any texts without digit, '@' and line break around and between them parse to exactly those digits in their order and "@c.us" |
| BulkRecipients.ChatIdParses | dashboard/src/utils/bulkRecipients.ts:13-18 | a line with '@' is kept untouched but for its padding |
| BulkRecipients.OtherLinesAreDropped | dashboard/src/utils/bulkRecipients.ts:14-20 | a line without '@' and digits gives nothing |

## Left out

- ValidateEnv: error texts and non-string values are not modelled, because an error is its rule and its key (for a number: its bounds), and the configuration is a map of strings.
- DeclaredLengthOfSpelling: reads the exact number a text writes and does not round it to a double, because exact arithmetic is what the readers rely on below 2^53; a fraction too fine for a double, which rounds to a whole number there, is not whole here.
- BodiesRefusedIff: reads budgets and limits as `BudgetIsZeroIff` does.
- BudgetIsZeroIff: reads explicit budgets and limits exactly, without double rounding, for the same reason; every spelling `Number` knows is read.
- ConnectionValuesArePersisted: takes the JSON-quoted file to be read back as written, because dotenv's parser is not part of this model.
- SchemaIsInertInQuotes: does not model that PostgreSQL cuts identifiers at 63 bytes, which a padded value can exceed.
- The 503 response and its headers, `Retry-After`, `headersSent`, `unref`, listener registration and what `req.destroy()` does inside Node: a refusal is a null result, a destroy is recorded with its reason.
- Pipelined requests that share one socket counter: every request has a counter of its own, and nothing is claimed about sharing.
- The spelling `Infinity`: it reads as not-a-number, which every reader here treats alike.
- File system work, permissions, dotenv's own parser and the JSON quoting of the generated file: a file is the key/value map it holds, and the written file is taken to be read back as written.
- The configuration's numbers that validation does not look at: nothing is promised about them.
- How PostgreSQL reads the search path itself (letter case, 63 bytes) and escapes in its options, which an accepted schema cannot contain: only the splitting into words is modelled.
- `get`, `has`, `size`, `keys` and `require` of the registry beyond the lookup they share: each is one lookup.
- The session lifecycle that calls the registry: its callers are arbitrary interference here.
- Swagger, feature flags, CORS policy, secrets check, process monitors, the dashboard's components and the report scripts: finite tables, single branches or user interface.
