# Verified model of the FGOTHS runtime

This project models the parts of the FGOTHS framework where a wrong branch would be felt most, and
proves what their code promises. It follows `pkg/runtime` (router, admission control, versioned
policies and deployments with their SQLite stores, metrics, upstream selection, the hot-reload hub),
the development loop of the example applications, and the `upgrade` command.

Check everything with `dafny verify dfyconfig.toml`.

| File | What it covers |
|---|---|
| `GoStrings.dfy`, `KeyOrders.dfy` | the string operations the code uses: index, split, join, trim; the orders of a map's keys |
| `RouteMatching.dfy`, `RouteSubstitution.dfy`, `RoutePatterns.dfy`, `RouteNames.dfy`, `Router.dfy`, `RouterRuns.dfy` | pattern compiler, cursor walks, values, route choice, the shared pattern index |
| `DevScheduler.dfy`, `DevRuns.dfy`, `Fragment.dfy` | the debounce and rebuild state machine, the fragment extractor |
| `RateLimiter.dfy`, `CircuitBreaker.dfy`, `TenantQuota.dfy`, `QuotaCallers.dfy` | token bucket, breaker, per-tenant window |
| `Policies.dfy`, `PolicyRuns.dfy`, `PolicyRestart.dfy`, `LogTable.dfy`, `PolicyStore.dfy`, `DeploymentLedger.dfy`, `LedgerRules.dfy` | versioned policies, the ledger, their tables and restarts |
| `ErrorWindow.dfy` | the ring of recent outcomes |
| `EventHub.dfy`, `HubRuns.dfy` | subscriptions, replay and broadcast as interleaved steps |
| `Upstreams.dfy`, `RegistryRuns.dfy` | registration, weighted choice, route resolution |
| `Upgrade.dfy`, `UpgradeRuns.dfy` | the plan and apply transaction; several runs, interrupted or not |

## How it is modelled

Objects that the code changes in place are classes whose methods state their whole new state, as a
function of the old one. The theorems are about those functions and about runs of them: sequences of
registrations, requests, operations, or enabled steps in any order. Blocks under a mutex are single
steps. Clocks, random draws, database scans, write outcomes, URL validity, the merge program and the
encoding of the upgrade manifest are parameters, and every theorem holds for all of them (or for those
that meet a stated requirement, such as a scan being ordered). Map iteration is a loop that takes the
keys in any order. Token counts and times are reals, so rounding is not modelled.

## Where the code does less than one might expect

Each point has a concrete case or a family of them and, where it is a condition on the input, the
exact condition.

- A pattern that repeats a parameter name keeps only the first value, so some matching path is not
  rebuilt from its values, exactly for such patterns that match anything (`RebuiltIffNamesDistinct`).
- Two routes can tie, parameter routes as well as one wildcard with one plain route; the order in which
  the map gives its keys then decides, and only then (`RouteIsFixedIff`, `ParamTieExample`,
  `LegacyTieExample`).
- `normalizePath` strips one slash only, so it is not idempotent on double trailing slashes
  (`NormalizeTwice`).
- A failing cycle of the dev loop leaves a queued change waiting until the next change
  (`StrandedExactlyByFailure`, `IdleIsDoneIffNotStranded`). The comment at
  `examples/webapp-demo/cmd/dev/main.go:327` promises one follow-up cycle.
- The fragment extractor counts every tag that begins with `<div` as a div, so `<divider></divider>`
  inside the container loses its end: the content comes back exactly if there is no such tag
  (`ExtractInvertsPrint`).
- The circuit breaker's window does not slide. It stands where a success, a failure or a request that
  was let through began it, and is dropped whole: 2 * threshold - 1 failures within one window length
  always open the breaker, one fewer need not (`TripsExactly`, `TwiceThresholdTrips`,
  `WindowDoesNotSlide`).
- A policy created without an environment is active under `prod` but filed under the empty one
  (`CreateAlignedIffEnvironmentGiven`); a later update opens a second history, and a restart brings
  the active policies back in every map order exactly if all histories of a name end alike
  (`RestartAfterRunIff`, `RestartCanRevert`).
- Policy names with a slash can share one history, which from then on can never be saved
  (`SavableIffNoCreateMeets`, `SharedKeyIsNeverSaved`, `SlashedNamesAreNeverSaved`).
- A deployment manifest is held to the production guardrails only if it spells its environment just
  `prod`, but it is filed by the trimmed name: one that spells it with white space around is filed
  under `prod` without them (`GuardedIffSpelledProd`).
- `ErrorWindow(size)` divides the failures of the whole window by `size`; its comment says the rate
  over the last `size` requests (`RightIffNothingOlderFailed`, `RateAboveOne`).
- `Register` and `RegisterUpstream` are documented as adding or replacing; both refuse a name that is
  taken, and the model does the same.
- `Subscribe` sends its replay after unlocking: eight events in between block it for ever, and any event
  in between is received before the older replay (`SubscribeReturnsIffFewerThanEight`,
  `StalledForever`, `ReplayOvertaken`).
- A merge candidate that was left cut short stops later upgrades to that version, as long as the
  conflict lasts and the candidate is not removed (`GoesThroughIffCandidatesFree`, `CutShortStops`,
  `StuckExample`).

## Model

| member | source | states |
|---|---|---|
| `RouteMatching.MatchSegParts` | pkg/runtime/router.go:280-307 | the cursor walk over a mixed segment accepts it if and only if a decomposition exists: literals verbatim, every parameter non-empty and ending at the first occurrence of the next literal |
| `RouteMatching.DecomposeExact` | pkg/runtime/router.go:280-307 | the scan yields pieces exactly when those pieces are a decomposition, so a segment has at most one |
| `RouteMatching.AdjacentParamsNeverMatch` | pkg/runtime/router.go:280-307 | a segment pattern with two parameters in a row matches nothing |
| `RouteMatching.MatchParams` | pkg/runtime/router.go:234-261 | the walk that allocates nothing answers true iff the path cut at every `/` has as many segments as the pattern and each matches |
| `RouteMatching.SegPartValue` | pkg/runtime/router.go:349-375 | on every segment that matches, the answer (found or not, value) is the one the unique decomposition gives for the name |
| `RouteMatching.ParamValue` | pkg/runtime/router.go:312-345 | on every path that matches, the result is the value of the first parameter of that name, taken from the decompositions of the segments |
| `RouteSubstitution.MatchThenFill` | pkg/runtime/router.go:234-345 | putting the values read from a matching path back into the pattern rebuilds the path byte for byte, as long as parameters of one name hold one value |
| `RouteSubstitution.DistinctNamesConsistent` | pkg/runtime/router.go:234-345 | with distinct parameter names that condition always holds |
| `RouteSubstitution.RebuiltIffNamesDistinct` | pkg/runtime/router.go:234-375 | every matching path of a pattern is rebuilt iff no parameter name repeats (or two parameters are adjacent and nothing matches) |
| `RouteSubstitution.RepeatedNameLosesValues` | pkg/runtime/router.go:312-345 | for every pattern with a repeated name and no adjacent parameters there is a matching path that is not rebuilt |
| `RouteSubstitution.ReadBackIffConsistent` | pkg/runtime/router.go:312-345 | every value of a path reads back iff bindings of one name agree |
| `RouteSubstitution.FillThenMatch` | pkg/runtime/router.go:234-375 | a filled-in pattern matches and gives every value back if and only if each value is non-empty, free of `/`, and last in its segment or in front of a literal it does not contain earlier (no adjacent parameters) |
| `RouteSubstitution.FilledValuesComeBack` | pkg/runtime/router.go:312-375 | with such values each name reads back what was put in |
| `RoutePatterns.CompileSegParts` | pkg/runtime/router.go:409-471 | the loop with its literal buffer produces the part list of the recursive lexer, or nothing when the segment holds no parameter |
| `RoutePatterns.CompilePattern` | pkg/runtime/router.go:382-404 | the whole-pattern compiler produces the segments of the specification and reports correctly whether any is a parameter |
| `RoutePatterns.TokensCanonical` | pkg/runtime/router.go:409-471 | compiled literals are never empty nor adjacent, compiled names are valid |
| `RoutePatterns.TokensSpell` | pkg/runtime/router.go:409-471 | the compiler forgets nothing: some spelling of the compiled parts is the very text they came from |
| `RoutePatterns.ReadBackIffReadable` | pkg/runtime/router.go:409-471 | printing a part list, each parameter as `{name}` or `:name`, and compiling it gives the list back iff each chunk is kept as text, chunks stand apart, and each parameter is read as itself |
| `RoutePatterns.SpellableIsReadable` | pkg/runtime/router.go:409-511 | in particular when literals hold no `{`, `:` or `/` and a `:name` stands before a byte no name holds |
| `RoutePatterns.CompileSegmentIff` | pkg/runtime/router.go:382-511 | a printed segment compiles back to itself iff its spelling is readable |
| `RoutePatterns.CompiledWellFormed` | pkg/runtime/router.go:382-511 | every compiled segment has valid names, slash-free literals and, when mixed, at least two parts with a parameter among them |
| `RoutePatterns.CompileOfSpell` | pkg/runtime/router.go:382-511 | printing a pattern of slash-free segments and compiling it gives the segments back iff each is readable, the bare `/` excepted |
| `RoutePatterns.CompiledFillThenMatch` | pkg/runtime/router.go:234-511 | for every pattern text that compiles with parameters, filling in and matching undo each other exactly for clean values |
| `RoutePatterns.CompiledRebuiltIffNamesDistinct` | pkg/runtime/router.go:234-511 | for every pattern text, all matching paths are rebuilt iff no name repeats or two parameters are adjacent |
| `RouteNames.ParameterIff` | pkg/runtime/router.go:473-511 | a whole segment `{name}` or `:name` compiles to a parameter iff the name is not empty and made of the 26 letters in both cases, the ten digits and `_` |
| `RouteNames.ParameterSpelling` | pkg/runtime/router.go:489-511 | and a segment compiles to a parameter in these two spellings only |
| `RouteNames.LexReads` | pkg/runtime/router.go:424-458 | inside a segment `{name}` is read iff its name is such a name, and `:name` iff it is the longest run of letters and digits behind the colon and not empty: it stops at `.`, `-`, `_`, `{` and every other byte |
| `RouteNames.MixedReads` | pkg/runtime/router.go:409-471 | where a parameter begins the part list goes on with it and then with the rest behind it |
| `RouteNames.MixedKeeps` | pkg/runtime/router.go:409-471 | where none begins one byte is kept as literal text |
| `RouteNames.SegmentsArePieces` | pkg/runtime/router.go:382-404 | a pattern has one segment for each piece between its slashes, the leading one left out, and `/` has none |
| `RouteNames.LiteralIff` | pkg/runtime/router.go:382-471 | a segment stays literal iff no parameter begins at any byte of it and it is not a colon with a name |
| `Router.NormalizeTwice` | pkg/runtime/proxy.go:753-764 | normalising twice equals normalising once exactly for paths that do not end in a double slash (the path `//` excepted) |
| `Router.ParamPatternIndex.Index` | pkg/runtime/router.go:547-561 | the shared index gains a missing pattern and never replaces an entry |
| `Router.RouterTable.Handle` | pkg/runtime/router.go:80-108 | registration stores the compiled entry under the normalised method and path, and indexes parameter patterns |
| `Router.Specificity` | pkg/runtime/router.go:80-108 | the literal counter is the number of segments that are not whole-segment parameters |
| `Router.PrefixIsSegmentPrefix` | pkg/runtime/router.go:583-597 | prefix matching of legacy routes never stops inside a segment: it holds iff the route's segments are the first segments of the path |
| `Router.RouteMatchesIff` | pkg/runtime/router.go:583-597 | a route without parameters matches iff it is the path, or its segments (those in front of `/*` for a wildcard) are the first segments of the path |
| `Router.NormalizeKeepsSegments` | pkg/runtime/proxy.go:753-764 | normalising neither gains nor loses a segment that is not empty |
| `Router.MatchRoute` | pkg/runtime/router.go:175-229 | the loop gives the route of some order of the keys, and whatever the order: an exact key wins; else a matching parameter route with most literal segments, then longest; else a longest route whose segments begin the path; else `/`; and nothing only if nothing fits |
| `Router.SelectionRankIsFixed` | pkg/runtime/router.go:175-229 | any two key orders give the same category and score, and can differ only among parameter or legacy routes that tie |
| `Router.SelectedBySomeOrder` | pkg/runtime/router.go:175-229 | the routes that key orders give are all those that this priority rule allows: each has an order |
| `Router.TiesAreSelectable` | pkg/runtime/router.go:175-229 | every candidate that ties with the route of one key order is the route of another |
| `Router.RouteIsFixedIff` | pkg/runtime/router.go:175-229 | all key orders give one route iff the path is a key itself or no two routes tie for the best place |
| `Router.ParamTieExample` | pkg/runtime/router.go:175-229 | parameter routes tie: for `/a/b` the two orders of `/{x}/b` and `/a/{y}` give different routes |
| `Router.LegacyTieMixesKinds` | pkg/runtime/router.go:175-229 | normalised legacy routes that tie are always one wildcard and one plain route |
| `Router.LegacyTieExample` | pkg/runtime/router.go:175-229 | so do the two orders of `/a/*` and `/a/b` for `/a/b/c` |
| `Router.IndexAgreesWithRouters` | pkg/runtime/router.go:527-561 | after any registrations on any routers each index entry is the fresh compilation of its key and every registered parameter pattern is there |
| `Router.IndexOnlyGrows` | pkg/runtime/router.go:547-561 | later registrations change or drop no index entry |
| `Router.PathValue` | pkg/runtime/router.go:566-581 | the handler-side lookup: the standard library for unknown patterns, the empty string for a path of another shape, else the first value of the name |
| `Router.PathValueAfterDispatch` | pkg/runtime/router.go:527-581 | a request dispatched by its parameters reads the values of the entry it matched, and reads nothing once its path is rewritten to a shape that does not match |
| `RouterRuns.UpperMeans` | pkg/runtime/router.go:84-84 | in the method key each of the 26 small letters becomes its capital and every other byte stays |
| `RouterRuns.LiteralsAreCounted` | pkg/runtime/router.go:98-102 | the literal counter is the number of places that hold no whole-segment parameter |
| `RouterRuns.LastHandlerWins` | pkg/runtime/router.go:80-108 | after any registrations a router has an entry for a method and a pattern iff some registration named them, with the handler of the last one that did |
| `RouterRuns.EntryHasParamsIff` | pkg/runtime/router.go:95-108 | an entry takes part in parameter matching iff its pattern does not end in `/*` and a parameter begins in one of its segments |
| `RouterRuns.IndexedIff` | pkg/runtime/router.go:80-108 | after any registrations the shared index has a pattern iff some router registered it and it is such a pattern |
| `RouterRuns.PathValueAnswers` | pkg/runtime/router.go:563-581 | the answer of the handler-side lookup after any registrations: the standard library for every other pattern, else the first value of the name in a path that fits, else the empty string |
| `DevScheduler.DevWatcher.ScheduleChange` | examples/webapp-demo/cmd/dev/main.go:406-424 | the whole new state after a change: queued behind a running cycle, or debounced with a new timer |
| `DevScheduler.DevWatcher.TimerCallback` | examples/webapp-demo/cmd/dev/main.go:425-439 | the whole new state after a timer fires: nothing for a stale one, otherwise the debounce batch becomes a cycle |
| `DevScheduler.DevWatcher.CycleFailed` | examples/webapp-demo/cmd/dev/main.go:330-363 | the whole new state after generate, build or start fails |
| `DevScheduler.DevWatcher.CycleWaited` | examples/webapp-demo/cmd/dev/main.go:365-390 | the swap: the old server goes only after the new one is ready, otherwise the new one goes |
| `DevScheduler.DevWatcher.CycleFinished` | examples/webapp-demo/cmd/dev/main.go:392-404 | the end of a cycle: the pending batch becomes the next cycle, or the loop is idle |
| `DevScheduler.EveryRunIsSafe` | examples/webapp-demo/cmd/dev/main.go:293-440 | over every interleaving of changes, live and stale timers and failing or succeeding cycles: at most one cycle; a debounce batch has a live timer with the current id; every accepted change is in exactly one of debounce batch, pending batch or a batch handed to a later cycle; batches are summed up correctly; a server is up |
| `DevScheduler.MergeAllMeaning` | examples/webapp-demo/cmd/dev/main.go:560-565 | a batch is named after its last static asset, or after its last change when it has none |
| `DevScheduler.StrandedExactlyByFailure` | examples/webapp-demo/cmd/dev/main.go:329-404 | a queued batch is left without a cycle exactly by a failing cycle, and moves again exactly with the next live timer |
| `DevScheduler.IdleIsDoneIffNotStranded` | examples/webapp-demo/cmd/dev/main.go:293-440 | in every run, once no timer is armed and nothing is running, all accepted changes have been handed to cycles iff no batch is stranded |
| `DevScheduler.QueuedChangeCanStrand` | examples/webapp-demo/cmd/dev/main.go:329-363 | a run of four steps that leaves a queued change with nothing running |
| `DevRuns.CurrentIsLastReady` | examples/webapp-demo/cmd/dev/main.go:344-390 | in every run the current server is the process started before the last event that found one ready, or the initial one; it and the one a waiting cycle has started are all that run |
| `DevRuns.CycleRebuildsLastBatch` | examples/webapp-demo/cmd/dev/main.go:329-440 | in every run the running cycle rebuilds for the batch handed over last, and generates iff a change in it asks for it |
| `DevRuns.StaticIff` | examples/webapp-demo/cmd/dev/main.go:551-558 | static assets are the paths that end in `.css`, `.js` or `.html` |
| `DevRuns.StoppedTimersAreGone` | examples/webapp-demo/cmd/dev/main.go:413-424 | in every run in which stopping a timer comes in time one timer is armed while a batch is collected, and none otherwise |
| `Fragment.ExtractFragment` | examples/webapp-demo/cmd/dev/main.go:216-248 | the depth walk computes the specified extraction and ends on every input |
| `Fragment.ScanForest` | examples/webapp-demo/cmd/dev/main.go:228-247 | the walk passes over any printed tree of divs, other tags and text; each other tag that begins like a div leaves it one deeper, nothing else does |
| `Fragment.ExtractInvertsPrint` | examples/webapp-demo/cmd/dev/main.go:216-248 | from a page whose first container id stands in a div around a printed forest, extraction returns that forest iff it holds no other tag that begins like a div, whatever precedes (free of the id) and follows; else it returns more than the forest or nothing |
| `RateLimiter.ProxyRateLimiter.Allow` | pkg/runtime/proxy.go:184-205 | the decision and the whole new bucket |
| `RateLimiter.NeverOverBudget` | pkg/runtime/proxy.go:161-205 | over every run, between any two requests at most burst + limit * elapsed are admitted |
| `RateLimiter.NeverOverBudgetFromStart` | pkg/runtime/proxy.go:161-205 | the same counted from the creation of the limiter |
| `RateLimiter.FullMoment` | pkg/runtime/proxy.go:161-205 | since the last instant the bucket was full every token is accounted for exactly |
| `RateLimiter.RejectsExactlyOverBudget` | pkg/runtime/proxy.go:161-205 | a request is turned away if and only if admitting it would exceed burst + limit * elapsed from some earlier instant |
| `CircuitBreaker.ProxyCircuitBreaker.Allow` | pkg/runtime/proxy.go:113-130 | the decision and the whole new state |
| `CircuitBreaker.ProxyCircuitBreaker.RecordFailure` | pkg/runtime/proxy.go:143-159 | the whole new state after a failure |
| `CircuitBreaker.TripsOnlyOnRecentFailures` | pkg/runtime/proxy.go:89-159 | a failure that opens the breaker has at least threshold failures in the window ending with it and no success since the first of them |
| `CircuitBreaker.StaysOpen` | pkg/runtime/proxy.go:113-159 | without a success the breaker stays open for openFor, and later failures only push reopening back |
| `CircuitBreaker.EventsDecide` | pkg/runtime/proxy.go:113-159 | the breaker's counter is the failures since its window's start, which is read off the events: a success always begins a window; a failure, or a request that is let through, begins one when there is none or it is over |
| `CircuitBreaker.TripsExactly` | pkg/runtime/proxy.go:143-159 | a failure opens the breaker iff at least threshold failures lie since the start of its window |
| `CircuitBreaker.RefusesExactlyWhileTripped` | pkg/runtime/proxy.go:113-159 | a request is refused iff some such failure is less than openFor old with no success in between |
| `CircuitBreaker.TwiceThresholdTrips` | pkg/runtime/proxy.go:113-159 | 2 * threshold - 1 failures within one window length and no success always hold one that opens the breaker |
| `CircuitBreaker.WindowDoesNotSlide` | pkg/runtime/proxy.go:113-159 | for every threshold above one there is a run with 2 * threshold - 2 such failures in which none does |
| `TenantQuota.CompactInPlace` | pkg/runtime/tenant.go:117-122 | the filter over the entries' own array leaves exactly the live times, in order, at its front |
| `TenantQuota.TenantQuotaStore.Sweep` | pkg/runtime/tenant.go:109-115 | the sweep, in any key order, drops exactly the tenants whose last time is outside the window |
| `TenantQuota.TenantQuotaStore.Admit` | pkg/runtime/tenant.go:89-137 | the response and the whole new store, for disabled limits, missing tenants and both decisions |
| `TenantQuota.ExactSlidingWindow` | pkg/runtime/tenant.go:89-137 | with requests in time order, one passes iff fewer than limit of its tenant's requests passed in the window ending with it |
| `TenantQuota.SweepChangesNoDecision` | pkg/runtime/tenant.go:108-115 | sweeping at any interval, or never, changes no decision of any run |
| `TenantQuota.TenantsAreIsolated` | pkg/runtime/tenant.go:116-131 | other tenants' requests do not matter to the rule |
| `TenantQuota.DecidesAsIfAlone` | pkg/runtime/tenant.go:89-137 | the middleware decides each request as if its tenant were the only one |
| `TenantQuota.NoWindowOverflows` | pkg/runtime/tenant.go:89-137 | no stretch of one window length ever holds more than limit passes of a tenant |
| `QuotaCallers.ServeInOrder` | pkg/runtime/tenant.go:89-137 | a store that serves requests in time order answers each by the rule, read off the requests as they come in: charged to the tenant in the context, to that of the header only when the context names none, and turned away when neither does |
| `Policies.RouteRegistry.RegisterPolicy` | pkg/runtime/config_registry.go:153-182 | refusal, or the normalised policy in the registry |
| `Policies.RouteRegistry.ReplacePolicy` | pkg/runtime/policy_versioning.go:297-323 | refusal, or the normalised policy over the present one |
| `Policies.RouteRegistry.GetPolicy` | pkg/runtime/config_registry.go:185-193 | lookup by trimmed name |
| `Policies.PolicyVersioner.CreatePolicy` | pkg/runtime/policy_versioning.go:165-190 | the whole new state of registry, histories and store, and the error |
| `Policies.PolicyVersioner.UpdatePolicy` | pkg/runtime/policy_versioning.go:194-239 | the whole new state and the error |
| `Policies.PolicyVersioner.RollbackPolicy` | pkg/runtime/policy_versioning.go:243-278 | the whole new state and the error |
| `Policies.EveryRunIsAligned` | pkg/runtime/policy_versioning.go:165-278 | after any mix of operations each history is numbered 1..n with policies of its own key, and the registry holds exactly the normalised last record of each history |
| `Policies.VersionsArePermanent` | pkg/runtime/policy_versioning.go:165-278 | over whole runs a version once recorded is never changed, moved or dropped: earlier histories are prefixes of later ones |
| `Policies.RollbackRestores` | pkg/runtime/policy_versioning.go:243-278 | rolling back to an existing version succeeds, makes that version's policy active and appends it as version n + 1 |
| `Policies.CreateAlignedIffEnvironmentGiven` | pkg/runtime/policy_versioning.go:165-190 | creating a policy keeps registry and history aligned iff it names an environment |
| `Policies.Rebuild` | pkg/runtime/policy_versioning.go:135-157 | loading saved histories into an empty registry restores them in some order, and if they belong to a set of active policies, exactly these in every order |
| `Policies.HistoriesDetermineRegistry` | pkg/runtime/policy_versioning.go:135-157 | histories determine the active policies |
| `Policies.RestartAfterRun` | pkg/runtime/policy_versioning.go:135-157 | after any run whose last save went through a restart has the same active policies |
| `PolicyRuns.LastAcceptedIsActive` | pkg/runtime/policy_versioning.go:165-278 | after any operations a name is active iff an accepted one put a policy of that name in force, and it is the last such policy with names trimmed, `prod` and the standard SLO only where it says nothing, and all else unchanged |
| `PolicyRuns.CreateAcceptedIff` | pkg/runtime/policy_versioning.go:165-190 | a create is accepted iff it has an actor, a name and a service and no policy of the name is in force |
| `PolicyRuns.UpdateAcceptedIff` | pkg/runtime/policy_versioning.go:194-239 | an update is accepted iff it has an actor and a service and names the environment of the policy in force |
| `PolicyRuns.RollbackAcceptedIff` | pkg/runtime/policy_versioning.go:243-278 | a rollback is accepted iff it has an actor and the version exists, after any operations |
| `PolicyRuns.EveryOperationIsRecorded` | pkg/runtime/policy_versioning.go:165-278 | after any operations each history has one record for each accepted operation filed under it, in order, with actor, reason and time |
| `PolicyRestart.FirstWins` | pkg/runtime/policy_versioning.go:145-153 | of the histories with one name the first in the order is restored |
| `PolicyRestart.RestartAfterRunIff` | pkg/runtime/policy_versioning.go:135-278 | over every run whose new names hold no `/`, missing environments included, a restart restores the active policies in every map order iff each history ends with the active policy of its name |
| `PolicyRestart.RestartCanRevert` | pkg/runtime/policy_versioning.go:145-223 | creating without an environment and then updating for `prod` makes two histories, one order of which restores the old policy |
| `LogTable.ScanExists` | pkg/runtime/sqlite_store.go:261-261 | every table has an ordered scan |
| `LogTable.SaveLoadIdentity` | pkg/runtime/sqlite_store.go:221-280 | lists saved under their keys and rising numbers come back from any ordered scan exactly as they were |
| `LogTable.OnlyStorableComesBack` | pkg/runtime/sqlite_store.go:221-280 | where the elements carry their own numbers and splitting undoes joining on the keys in use, only lists with surviving keys, at least one element and rising numbers come back (`Deployments.ComesBackIffDense` covers the history table, numbered by index) |
| `PolicyStore.SplitPolicyKey` | pkg/runtime/sqlite_store.go:385-392 | the scan finds the first `/`; keys with one rejoin to themselves |
| `PolicyStore.SplitAndJoin` | pkg/runtime/sqlite_store.go:277-277 | splitting undoes joining for names without `/`; joining undoes splitting iff the key holds one |
| `PolicyStore.SqlitePolicyStore.Save` | pkg/runtime/sqlite_store.go:221-253 | the transaction succeeds iff no two records want one primary key, then holds exactly the records; otherwise nothing changed |
| `PolicyStore.SqlitePolicyStore.Load` | pkg/runtime/sqlite_store.go:256-280 | the rows of the query appended, in order, under the rejoined key |
| `PolicyStore.ComesBackIffLossless` | pkg/runtime/sqlite_store.go:221-280 | histories come back unchanged iff every key has a `/`, no history is empty and versions rise |
| `PolicyStore.AlignedIsLossless` | pkg/runtime/policy_versioning.go:165-278 | every state a run of policy operations reaches is like that |
| `PolicyStore.CreateSavesIffKeyIsNew` | pkg/runtime/policy_versioning.go:176-189 | after a create the save succeeds iff the policy's key had no history |
| `PolicyStore.SavableIffNoCreateMeets` | pkg/runtime/policy_versioning.go:165-278 | over all runs the histories can be saved iff no accepted create ever met a key that had a history |
| `PolicyStore.NeverSavedAgain` | pkg/runtime/policy_versioning.go:165-278 | histories that cannot be saved cannot be saved after any further operations either |
| `PolicyStore.SharedKeyIsNeverSaved` | pkg/runtime/policy_versioning.go:165-190 | creating two policies whose different names share a key is accepted, and nothing can be saved from then on |
| `PolicyStore.SlashedNamesAreNeverSaved` | pkg/runtime/policy_versioning.go:159-190 | as do `a/b` for `c` and `a` for `b/c` |
| `PolicyStore.RestartThroughDatabase` | pkg/runtime/sqlite_store.go:221-280 | after any run the save succeeds and a process that starts from the database has the same histories and active policies |
| `Deployments.Validate` | pkg/runtime/governance.go:405-445 | the first failing rule, and the manifest with its policy's environment and service filled in |
| `Deployments.DeploymentLedger.RecordManifest` | pkg/runtime/governance.go:528-556 | the whole new ledger, the filled-in manifest and the error |
| `Deployments.EveryLedgerIsSound` | pkg/runtime/governance.go:528-556 | after any offered manifests no inner map or list is empty, current is the last of its history, versions differ and every entry is valid and filed under its own service and environment |
| `Deployments.RecordKeepsSound` | pkg/runtime/governance.go:528-556 | one step of that, and a refused manifest changes nothing |
| `Deployments.FlatDetermines` | pkg/runtime/sqlite_store.go:137-194 | nested maps without empty inner maps are determined by their entries |
| `Deployments.SqliteDeploymentStore.Save` | pkg/runtime/sqlite_store.go:72-134 | no insert meets a taken primary key, and the tables hold exactly the entries |
| `Deployments.SqliteDeploymentStore.Load` | pkg/runtime/sqlite_store.go:137-194 | the nested maps rebuilt from the rows, without empty inner maps |
| `Deployments.ComesBackIffDense` | pkg/runtime/sqlite_store.go:72-194 | what is loaded equals what was saved iff no inner map and no list was empty |
| `Deployments.RestartAfterRun` | pkg/runtime/governance.go:670-707 | a ledger persisted after any run and loaded into any other ledger is the same ledger |
| `LedgerRules.AcceptedIff` | pkg/runtime/governance.go:405-445 | a manifest is taken iff it names service and environment, its policy is its own, it has an audit trail, an SLO if it asks for signing or audit, all guardrails if it spells its environment `prod`, and a free version; it is filed with its policy named for it |
| `LedgerRules.EveryEntryKeepsTheRules` | pkg/runtime/governance.go:528-556 | whatever is offered, every entry of the ledger is like that |
| `LedgerRules.GuardedIffSpelledProd` | pkg/runtime/governance.go:420-427 | of the spellings that are filed under `prod`, exactly `prod` itself always has the guardrails |
| `LedgerRules.HistoryIsAsExpected` | pkg/runtime/governance.go:528-556 | after any offers a history is the acceptable manifests of its service and environment with versions not there yet, in order, and the active one is its last |
| `ErrorWindows.Metrics.Record` | pkg/runtime/metrics.go:181-203 | the ring with its head, count and error counter goes on representing the last 1000 outcomes of the history |
| `ErrorWindows.Metrics.ErrorWindow` | pkg/runtime/metrics.go:223-237 | the reported pair as a function of the plain history |
| `ErrorWindows.RightIffNothingOlderFailed` | pkg/runtime/metrics.go:220-237 | the reported rate is that of the last min(size, 1000) requests iff no failure sits in the window before them |
| `ErrorWindows.WholeWindowIsExact` | pkg/runtime/metrics.go:220-237 | from size 1000 on it is always right and within [0, 1] |
| `ErrorWindows.RateAtMostOne` | pkg/runtime/metrics.go:220-237 | for a smaller size it is at most 1 iff the window holds no more failures than size |
| `ErrorWindows.RateAboveOne` | pkg/runtime/metrics.go:220-237 | two failures, asked for the last one, report a rate of 2 |
| `EventHub.Hub.Register` | pkg/runtime/hmr/hmr.go:115-124 | the whole new state of the locked part of Subscribe |
| `EventHub.Hub.SendReplay` | pkg/runtime/hmr/hmr.go:124-127 | the replay goes to an open channel with room |
| `EventHub.Hub.Unsubscribe` | pkg/runtime/hmr/hmr.go:128-135 | the first cancel closes the channel, which is still open; later ones do nothing |
| `EventHub.Hub.Publish` | pkg/runtime/hmr/hmr.go:145-158 | with clients in any order each open queue with room gains the stamped event |
| `EventHub.EveryRunIsGood` | pkg/runtime/hmr/hmr.go:115-166 | over every interleaving: registered channels are open, queues hold at most 8, every event has the build id and schema 1.1, and all a client was sent is the in-order broadcasts made while it was subscribed, less those dropped at a full queue, with at most one replay of the last earlier broadcast among them |
| `EventHub.ClosedForGood` | pkg/runtime/hmr/hmr.go:128-135 | over whole runs a channel closed once stays closed, and all it was ever sent stays the same |
| `EventHub.StalledForever` | pkg/runtime/hmr/hmr.go:115-127 | a replay that meets a full queue blocks Subscribe for ever: nobody can receive |
| `EventHub.SubscribeReturnsIffFewerThanEight` | pkg/runtime/hmr/hmr.go:115-127 | in every run a Subscribe with a replay to send can send it and return iff fewer than 8 broadcasts came since it registered, and is stalled from the eighth on |
| `EventHub.BurstStalls` | pkg/runtime/hmr/hmr.go:115-127 | both happen: runs with any number of broadcasts in between |
| `EventHub.ReplayOvertaken` | pkg/runtime/hmr/hmr.go:124-127 | in every run a replay is queued behind all broadcasts made since the client registered, though older than each; it comes first iff there were none |
| `HubRuns.SentAreTheBroadcasts` | pkg/runtime/hmr/hmr.go:145-166 | what the hub sends and remembers are the events broadcast, changed in schema version, build id and time only |
| `HubRuns.RegisteredIff` | pkg/runtime/hmr/hmr.go:115-135 | in every run a client is registered iff it has subscribed and not cancelled |
| `HubRuns.ReplaysIffRecent` | pkg/runtime/hmr/hmr.go:115-127 | in every run a subscription has a replay to send iff the last broadcast was less than 2 seconds ago, and it is that one |
| `Upstreams.RouteRegistry.RegisterUpstream` | pkg/runtime/upstream.go:40-76 | the refusal or the trimmed upstream with a weight of at least 1, and the registry stays sound |
| `Upstreams.RouteRegistry.Register` | pkg/runtime/config_registry.go:77-125 | the refusal or the normalised route, whose upstream reference never dangles |
| `Upstreams.PickWeightedUpstream` | pkg/runtime/upstream.go:159-167 | the walk picks the member a draw falls to, and reaches the trailing return only for draws past the total |
| `Upstreams.OneMemberPerDraw` | pkg/runtime/upstream.go:159-167 | every draw below the total falls to exactly one member, so the trailing return is never reached |
| `Upstreams.ExactlyWeightDraws` | pkg/runtime/upstream.go:159-167 | exactly weight of the draws choose each member |
| `Upstreams.PoolsAgree` | pkg/runtime/upstream.go:138-150 | all map orders give pools with the same members and total |
| `Upstreams.RouteRegistry.SelectUpstream` | pkg/runtime/upstream.go:106-127 | the named upstream if enabled and healthy, its live fallback if only enabled, else none |
| `Upstreams.RouteRegistry.PickUpstream` | pkg/runtime/upstream.go:131-157 | none iff no upstream is eligible; otherwise the member, of a pool of exactly the eligible upstreams, to which a draw below its positive total falls |
| `Upstreams.RouteRegistry.PickForRoute` | pkg/runtime/upstream.go:239-258 | the drawn member of the pool of the name's first service; the name itself or its live fallback only if there is no service or the pool is empty; none iff nobody may serve |
| `Upstreams.RouteRegistry.ResolveRouteTarget` | pkg/runtime/upstream.go:172-195 | the inline target, or that of the upstream the reference leads to in that way; resolves iff inline or some enabled and healthy upstream may serve |
| `RegistryRuns.FirstUpstreamStays` | pkg/runtime/upstream.go:40-76 | after any registrations an upstream is there iff a complete one of its name was offered, and it is the first of them, trimmed, with a weight of at least 1 |
| `RegistryRuns.FirstRouteStays` | pkg/runtime/config_registry.go:77-125 | a route is there iff one of its name was offered when it was complete (name, own path or method, enabled, a target or an upstream already there), and it is the first of them with method `ANY` and weight 100 where it gave none |
| `Upgrade.PlanFiles` | internal/cli/upgrade.go:207-253 | the plan is, file by file, the verdict of the specification, or nothing if one is refused |
| `Upgrade.PlannedIsGood` | internal/cli/upgrade.go:207-253 | planned actions are for different runtime files that exist, with their present content |
| `Upgrade.Project.WriteNew` | internal/cli/upgrade.go:592-609 | never touches an existing file; a new one holds the text, or a part from its beginning when the write was cut short |
| `Upgrade.Project.WriteOver` | internal/cli/upgrade.go:568-590 | replaces the file or leaves it alone |
| `Upgrade.Project.Replace` | internal/cli/upgrade.go:307-329 | at every point the file holds its original, or planned content with the original in its backup |
| `Upgrade.Project.ApplyIgnore` | internal/cli/upgrade.go:504-538 | the same for the ignore file |
| `Upgrade.Project.AdvanceManifest` | internal/cli/upgrade.go:356-416 | the same for the manifest, which either advances or stays |
| `Upgrade.Project.Apply` | internal/cli/upgrade.go:296-416 | whatever each write's fate: at every point every file that was there holds its content or planned content with a backup of the original; success means every action was done; the manifest advances only then and without conflicts; if all writes complete it succeeds iff the files are as planned, backups free and candidates free or equal |
| `Upgrade.UnwrittenStays` | internal/cli/upgrade.go:330-355 | at every such point a runtime file the plan does not write, a conflicted one included, is unchanged |
| `Upgrade.HashesMean` | internal/cli/upgrade.go:378-401 | the new manifest records the shipped hash of each runtime file present, forgets the absent ones and keeps the rest |
| `Upgrade.ReplanIsQuiet` | internal/cli/upgrade.go:207-253 | given an idempotent merge, a plan after a completed run writes nothing and has the same conflicts |
| `Upgrade.RunUpgrade` | internal/cli/upgrade.go:107-138 | plan and apply together, said with the files and the release: nothing is touched when up to date or without a plan; there is no plan iff the manifest cannot be read, a path has no shipped source or a merge broke; after a run that goes through every unedited file holds the new source, every edited one what the merge gave, or on a clash itself with the candidate saved, with backups of all that changed, and absent files stay absent; the manifest advances iff nothing clashed; with writes that complete it goes through iff no other file is at the path of a candidate |
| `Upgrade.GoesThroughIffCandidatesFree` | internal/cli/upgrade.go:330-355 | a run that has just planned can go through iff each merge candidate's path is free or holds that candidate, so one cut short stops later runs that plan the same conflict |
| `Upgrade.UpgradeTwice` | internal/cli/upgrade.go:107-138 | a second run after a completed one changes no runtime file, whatever happens to its writes; it has nothing to do iff there were no conflicts, and otherwise goes through if its writes do |
| `Upgrade.ShippedPathsAreWellFormed` | internal/cli/upgrade_baseline.go:37-44 | the shipped runtime paths are distinct and none is in a dot directory |
| `UpgradeRuns.ReplanResumes` | internal/cli/upgrade.go:207-253 | given an idempotent merge, from every point of an interrupted run there is a new plan, and each of its actions is the old one or finds the planned content in place |
| `UpgradeRuns.ResumeInterrupted` | internal/cli/upgrade.go:107-138 | an interrupted run and then one whose writes complete: if no backup or candidate is in the way, the second goes through, meets the conflicts of the first plan, and leaves every runtime file as the first run would have, had it gone through |
| `UpgradeRuns.FinishedDetermines` | internal/cli/upgrade.go:296-355 | what a run that is seen through leaves in a runtime file is settled by the plan and the file |
| `UpgradeRuns.CompletedIsFinished` | internal/cli/upgrade.go:296-355 | a run that went through leaves every runtime file in that state |
| `UpgradeRuns.NothingEverLost` | internal/cli/upgrade.go:296-416 | over any number of runs, completed or broken off at any point, what a file held at the start of any run is still in the file or in a backup of it |
| `UpgradeRuns.CutShortStops` | internal/cli/upgrade.go:330-355 | a planned conflict that meets a broken-off candidate of its own cannot go through |
| `UpgradeRuns.StuckExample` | internal/cli/upgrade.go:107-138 | an edited runtime file and a candidate of which three bytes were written: a run with a healthy disk applies its plan and fails |

## Left out

- HTTP serving, reverse proxying, TLS, OpenTelemetry, JWT and middleware chaining: library behaviour.
- Nil receivers and nil requests, error texts and printing: errors are the constructors of a datatype or a flag.
- The copies of the runtime under `benchmarks` and `examples`, and the other two copies of the dev loop.
- Text is modelled byte by byte, one `char` a byte; `TrimSpace`, `ToUpper` and name bytes treat ASCII only.
- `Router.ServeHTTP`, the fallback from one method table to another and `withWildcardRoute`: thin branches around the selection that is modelled.
- The clock is read once per operation, even where the breaker reads it twice; time never runs backwards.
- `proxyCircuitBreaker.lastFailure`: it is written and never read.
- Rounding of floating point, overflow of integers and the wrap-around of the 64-bit request and debounce counters.
- TenantQuota.CompactInPlace: the log is copied into a fresh array first, so sharing of one array between two slices is not captured.
- Process handling, file polling, routes of views and broadcasts of the dev loop: the steps around its lock that change no scheduler state.
- Policies.PolicyVersioner.CreatePolicy: the registry change and the history append are one step; another operation cannot come in between.
- A policy versioner without a store (`persistLocked` returns at once), the diff text of a record and `History`.
- `FilePolicyVersionStore` and `FileDeploymentStore`: one JSON document, taken as the identity.
- SQL text, pragmas, schema migration and JSON columns: a table is a map from primary key to row, a query is an ordered scan.
- Deployments.DeploymentLedger.RecordManifest: manifests are values, so the sharing of one manifest between the caller, `current` and `history` is not captured.
- Promotions, approval gates, release plans, rollouts, regions and tenant checks of the registry: straight branch validation.
- The latency histograms and the per-route counters of `Metrics`.
- Event encoding, the SSE handler and the browser client of the hub.
- Route headers and tenants, `ListUpstreams`, and the proxy built from a resolved target.
- Upgrade.Project.Apply: symbolic links, file modes, temporary files and edits of a file between its check and its write are not modelled; a path is present or absent.
- Upgrade.RunUpgrade: the choice of the baseline from `--from` and the manifest, and the text rules of the ignore file, are parameters.
