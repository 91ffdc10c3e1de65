# A verified model of the OpenDataGraph backend

This project models the stateful core of the backend in Dafny 4.11 and proves properties of it. The database is a set of
explicit tables: a committed transaction is one atomic step, and a conditional `UPDATE` whose row count is checked is a
compare-and-swap. Where several workers, requests or processes share rows, the model is a state machine whose runs are all
interleavings of their steps, with crashes where the program can die, and the results hold of every run. `PolicyLifecycle` and
`ServiceAccounts` first take requests one after the other; `PolicyRequests`, `RolloutRequests` and `AccountRequests` then split
reading from committing, where a commit writes only the columns whose loaded values the request changed. Objects whose methods
assign fields are classes; each of their methods is proved against a function on values, and the results are proved about those
functions.

`dafny verify dfyconfig.toml` checks everything. Instants are microseconds unless a file says otherwise.

## The modules

- Scheduling: `ProviderBudget` (the shared request budget), `Calendar`, `Maintenance`, `CronRuns`, `CronFields`, `Schedules`.
- Graph search: `Graph`, `GraphQuery` (breadth-first depths), `GraphPaths` (shortest-first simple paths).
- Policy: `PolicyEngine`, `PolicyDecision`, `DatabaseHistory`, `PolicyCache`, `RolloutCache`, `PolicyLifecycle`, `PolicyRequests`, `RolloutRequests`.
- Durable work: `Jobs`, `OutboxDispatch`, `Integrations`.
- Paging and codecs: `AuthzenPaging`, `AuthzenTokens`, `Base64`, `PostgresCursor`, `KeysetWalk`.
- Evidence: `JsonStrings`, `CanonicalJson`, `JsonText`, `JsonLaws`, `TimeStamps`, `EvidencePackages`, `Receipts`.
- Lifecycles: `ServiceAccounts`, `AccountRequests`, `Ownership`.
- Shared definitions: `Options`, `Numbers`, `Text`, `Ascii`.

## What turned out not to hold

Each of these is a lemma with a concrete run or input, next to the exact condition or the bound that does hold.

- Counted by commit time, a span of one window length can see three budgets, not two (`ProviderBudget.TwiceTheBudgetFailsByCommit`, for every budget); it sees more than two only when it counts a grant committed after the end of the window it was decided in (`ProviderBudget.TwiceUnlessLate`). When every update is committed within some delay of its clock reading, two budgets are a bound exactly for a delay of at most one instant, or an empty budget (`ProviderBudget.TwiceExactlyWhenSwift`).
- A schedule row reloaded between two claims of one pass is claimed twice for one due time (`Schedules.ReloadClaimsTwice`); a claim advances the row exactly when the compared value was due (`Schedules.AdvancesIffDue`).
- The one-year horizon of the cron search fails exactly for a free weekday together with no date that exists in every year (`CronRuns.HorizonSuffices`).
- `truncated` of a graph query is not whether anything was cut: it says that the edge budget was used up before the last level, so a search cut by its last LIMIT is not truncated and one that fills its budget exactly may be (`GraphQuery.QueryGraph`).
- A cached policy set can be newer than the caller's clock reading (`PolicyCache.NewerThanTheLookup`); the bound that holds runs up to the serving (`PolicyCache.EveryServingIsBounded`).
- A policy set that was being loaded can outlive an invalidation (`PolicyCache.StaleAfterInvalidation`), exactly when the load was over and recent at the invalidation (`PolicyCache.StaleExactlyWhen`).
- Two rotations of one account that overlap leave three credentials (`AccountRequests.ThreeWhenOverlapping`), and two activations that overlap leave two active bundles (`PolicyRequests.TwoWhenOverlapping`); without such overlaps the bounds hold (`AccountRequests.AtMostTwoApart`, `PolicyRequests.OneActiveApart`).
- Two advances of one rollout that overlap can leave a rollout paused yet completed (`RolloutRequests.PausedAndCompleted`), or enforce a completed one and activate its bundle (`RolloutRequests.CompletedThenEnforced`), from every active canary. A commit changes a completed rollout exactly when its request loaded it active (`RolloutRequests.DoneChangesExactlyWhen`), and `RolloutRequests.StageKeptExactlyWhen` says when the stage still fixes traffic and status; without such overlaps both hold (`RolloutRequests.CompletedStaysApart`).
- Canonical JSON is not a fixed point for objects whose keys spell out surrogate pairs that sort differently once joined (`JsonLaws.SpelledKeysBreakIt`, `JsonLaws.CanonicalReparse`).
- A search token is refused by the server that issued it exactly when its raw signature contains a dot (`AuthzenTokens.TokenRoundTrip`), so a search finishes exactly when none of its tokens has one (`AuthzenTokens.TokensYieldTheFilter`).
- A cancelled job can stay pending for ever (`Jobs.CancelledButPending`), exactly after the steps `Jobs.StrandedAfter` and `Jobs.StrandedExactlyWhen` name.
- A committed cancellation can be lost and the job's work begin (`Jobs.LostCancellation`), exactly when it loaded the flag set and the flag is clear at its commit, after a retry (`Jobs.CancellationHolds`).
- A second retry that comes late can put a running job back to pending, or claim a job once too often (`Jobs.LateRetryOverruns`); `Jobs.RetryKeptIffTimely` says exactly when a retry keeps the invariant.
- A retired credential can authenticate again (`ServiceAccounts.RetiredAuthenticatesAgain`, reachable by `ServiceAccounts.RetiredCanBeLatest`), and only in this way (`ServiceAccounts.RevivedExactlyWhen`).
- A late rejection can leave a completed ownership campaign with an open assignment (`Ownership.LateWriteReopens`), and nothing but such a rejection or a late second launch can (`Ownership.KeptIffTimely`).
- Two launches of one campaign that overlap give every asset two assignments (`Ownership.OverlappingLaunchesDuplicate`); a launch leaves its own assignments alone exactly when no other was committed since it loaded the draft (`Ownership.LaunchesOnce`).
- An added policy can make a decision milder (`PolicyDecision.DenyBecomesAllow`), exactly through an exception scoped to it (`PolicyDecision.MilderExactlyWhen`).

## Model

| member | source | states |
|---|---|---|
| `ProviderBudget.Decide` | app/services/schedules.py:345-369 | a refusal's retry-after reaches past the end of the window and overshoots it by at most a second |
| `ProviderBudget.DecideExactlyWhen` | app/services/schedules.py:345-369 | a request is refused exactly when the window still runs and it does not fit what is left, resets exactly when it has run out, and is charged otherwise |
| `ProviderBudget.StepKeepsInv` | app/services/schedules.py:336-382 | every read, clock reading, reset, charge and waiting step of any worker keeps the log of grants in line with the row |
| `ProviderBudget.RunKeepsInv` | app/services/schedules.py:336-382 | the same over every interleaving of any number of workers |
| `ProviderBudget.UsedIsWhatWasGranted` | app/services/schedules.py:336-382 | used_requests is what was granted since the last reset and never above max_requests; no earlier window granted more; window starts rise by at least the window length |
| `ProviderBudget.SpanBound` | app/services/schedules.py:345-380 | any span of one window length grants at most twice max_requests by decision time and three times by commit time |
| `ProviderBudget.ThreeAttempts` | app/services/schedules.py:336-382 | in every run a worker reads the row at most three times, and gives up only after the third |
| `ProviderBudget.TwiceUnlessLate` | app/services/schedules.py:345-380 | a span of one window length holds at most two budgets by commit time when no grant it counts is committed after the end of the window it was decided in |
| `ProviderBudget.TwiceWhenSwift` | app/services/schedules.py:345-380 | when every update that goes through is committed at most one instant after its clock reading, every span of one window length holds at most two budgets by commit time |
| `ProviderBudget.TwiceTheBudgetFailsByCommit` | app/services/schedules.py:345-380 | for every budget and every window of at least two instants, a run whose updates are committed within two instants of their clock readings and in which one window length holds three budgets by commit time |
| `ProviderBudget.TwiceExactlyWhenSwift` | app/services/schedules.py:345-380 | for every delay within which updates are committed: two budgets are a bound by commit time in every run from a fresh row exactly when the delay is at most one instant or the budget is empty |
| `ProviderBudget.LosingMeansSomeoneWon` | app/services/schedules.py:348-381 | a failed conditional update implies that another worker's update went through since the read |
| `ProviderBudget.FailedUpdateMeansProgress` | app/services/schedules.py:337-382 | from a worker's read to its failed update the run contains another worker's successful one |
| `ProviderBudget.BudgetRow.TryResetRow` | app/services/schedules.py:347-359 | the reset changes the row exactly when the window start is still the one read |
| `ProviderBudget.BudgetRow.TryConsumeRow` | app/services/schedules.py:367-380 | the charge changes the row exactly when use and window start are still those read |
| `ProviderBudget.BudgetRow.Consume` | app/services/schedules.py:336-382 | alone on the row, three attempts end in a grant within the budget, a refusal, or the give-up error, with the row each leaves |
| `Calendar.DateRoundTrip` | app/services/schedules.py:153-183 | numbering a date and dating the number give the date back, for every proleptic Gregorian date |
| `Calendar.YearContainsDate` | app/services/schedules.py:153-183 | every 366 days contain every date that exists in every year |
| `Calendar.YearContainsWeekday` | app/services/schedules.py:153-183 | every 366 days contain every weekday inside every month |
| `Calendar.NoLeapDayAfter2097` | app/services/schedules.py:153-183 | the 366 days from 1 January 2097 contain no 29 February |
| `Calendar.WeekdaysInTurn` | app/services/schedules.py:153-183 | day 1 is a Monday, and the weekdays follow each other |
| `Calendar.DayOne` | app/services/schedules.py:153-183 | day 1 is 1 January of year 1 |
| `Calendar.CalendarRepeats` | app/services/schedules.py:153-183 | four hundred years are 146,097 days and whole weeks |
| `Maintenance.InMaintenanceIsOccurs` | app/services/schedules.py:284-298 | the wall-clock test is membership in the union of weekly occurrences, overnight windows spilling into the next day |
| `Maintenance.SkipMaintenance` | app/services/schedules.py:186-197 | the first free minute, counted from the candidate, for any zone; it gives up only after a week of covered minutes |
| `Maintenance.WeeklyPeriod` | app/services/schedules.py:284-298 | maintenance repeats every week |
| `Maintenance.GivesUpIffAlwaysBusy` | app/services/schedules.py:186-197 | in a fixed-offset zone giving up after 10,080 steps means exactly that every minute of every week is covered |
| `CronRuns.NextCronRun` | app/services/schedules.py:153-183 | the least whole minute strictly after the instant that matches and is free, for any zone; giving up means no step of the horizon is. For a parsed expression it matches when clock and month are listed and, as the stars have it, the day or the weekday, the weekday, the day, or none is |
| `CronRuns.MatchesExactlyWhen` | app/services/schedules.py:165-180 | what a parsed expression asks of a local minute, field by field: without a star either day field will do, with one star the other decides |
| `CronRuns.HorizonSuffices` | app/services/schedules.py:153-183 | in a fixed-offset zone without maintenance the search always succeeds exactly when the weekday is restricted or some date of the fields exists in every year |
| `CronFields.ItemSpan` | app/services/schedules.py:218-246 | an accepted item has a positive step and bounds in order within the field's range |
| `CronFields.AddSpan` | app/services/schedules.py:240-246 | the loop adds exactly the values of the span, Sunday as 0 |
| `CronFields.Collect` | app/services/schedules.py:218-250 | the set holds exactly the values of all items, or the first invalid item's error is given |
| `CronFields.CollectedInRange` | app/services/schedules.py:232-239 | every collected value lies in the field's range |
| `CronFields.StarIsEverything` | app/services/schedules.py:225-229 | a bare star collects the whole range |
| `CronFields.ParseCronField` | app/services/schedules.py:218-250 | the text of a field gives the values of its comma-separated items, or an error |
| `CronFields.ParseCron` | app/services/schedules.py:200-215 | five words give a cron whose sets are what the items denote, in range and not empty, with the two star flags, or the error of the first invalid item, field by field; any other number of words is an error |
| `CronFields.ItemRoundTrip` | app/services/schedules.py:218-246 | every item written out parses to what it means |
| `CronFields.FieldRoundTrip` | app/services/schedules.py:218-250 | every list of items written out with commas parses to what the items mean |
| `CronFields.ExpressionRoundTrip` | app/services/schedules.py:203-206 | five lists of items written with spaces between them are the five fields of the expression |
| `Text.WordsJoin` | app/services/schedules.py:203 | words written with spaces between them are found again |
| `Text.DecimalRoundTrip` | app/services/schedules.py:228-234 | a number's digits read back as the number, without superfluous zeros |
| `Text.SplitJoin` | app/services/schedules.py:224-226 | splitting joined parts gives the parts back |
| `Schedules.NextScheduleRun` | app/services/schedules.py:143-150 | a cron schedule takes the next eligible minute; an interval one the least whole interval beyond the instant, then the first free minute |
| `Schedules.FollowingIsRun` | app/services/schedules.py:143-150 | what follows is a run time of the schedule and lies beyond the clock reading |
| `Schedules.AdvancesIffDue` | app/services/schedules.py:94-104 | a claim moves the row strictly forward exactly when the value it compares was due |
| `Schedules.FoundExactlyWhen` | app/services/schedules.py:78-93 | a pass finds exactly the enabled schedules that are due |
| `Schedules.ScheduleRow.Claim` | app/services/schedules.py:96-104 | the conditional update writes the target exactly when the row is enabled and holds the compared value |
| `Schedules.DueClaimsAreUnique` | app/services/schedules.py:78-116 | over every run whose compared values were due, no due value is claimed twice |
| `Schedules.EveryDueRun` | app/services/schedules.py:78-116 | from a row nobody works on: claims replace ever larger values, each due when it was compared, and only move the row forward |
| `Schedules.ReloadClaimsTwice` | app/services/schedules.py:94-107 | a run in which the value reloaded after a commit was not due, and one due time is claimed twice |
| `GraphQuery.Fetch` | app/services/graph.py:114-123 | a level's rows are all those selected, unless there are more of them than the LIMIT; then some of them, no more than it |
| `GraphQuery.Absorb` | app/services/graph.py:124-134 | new nodes get the level's depth and enter the next frontier, known ones keep theirs; every row is kept under its id |
| `GraphQuery.LevelSound` | app/services/graph.py:110-134 | after a level every depth is still the length of a walk |
| `GraphQuery.LevelExpanded` | app/services/graph.py:110-134 | an uncut level leaves nothing adjacent to it unvisited |
| `GraphQuery.LevelKept` | app/services/graph.py:124-134 | an uncut level reports every edge out of it |
| `GraphQuery.DepthsAreDistances` | app/services/graph.py:105-134 | when every level was expanded, the depths are the shortest distances within the bound |
| `GraphQuery.QueryGraph` | app/services/graph.py:94-157 | every reported depth is the length of a walk of allowed edges; nothing is cut exactly when every level that starts anywhere finds edges left in the budget and room for all rows it selects, and then the reported nodes are exactly those within the bound, at their distances, with every edge out of a node below it; `truncated` says exactly that the budget was used up before the last level |
| `GraphQuery.SelectedExactlyWhen` | app/services/graph.py:114-122 | a level selects the edges of an allowed relationship that lead somewhere from its frontier in the given direction |
| `GraphQuery.UsableExactlyWhen` | app/services/graph.py:119-122 | without relationships every edge may be used, otherwise those of the relationships named |
| `GraphQuery.LeadsExactlyWhen` | app/services/graph.py:115-119 | outbound edges lead from source to target, inbound ones from target to source, and both ways is either |
| `GraphQuery.AmpleBudgetFits` | app/services/graph.py:108-123 | a budget of more than twice the table fits every search |
| `GraphQuery.LevelBudget` | app/services/graph.py:111-123 | the levels up to one fit exactly when those before it do and its own rows do |
| `GraphPaths.GoalIsSimplePath` | app/services/graph.py:178-210 | the search's own notion of a finished path is that of a simple path from source to target |
| `GraphPaths.ExtensionsApart` | app/services/graph.py:178-210 | taking a path and adding its extensions keeps waiting and found paths pairwise apart |
| `GraphPaths.ExtensionsCover` | app/services/graph.py:178-210 | no simple path within the bound loses its waiting prefix |
| `GraphPaths.Expand` | app/services/graph.py:197-210 | the edge loop adds exactly the extensions to unvisited nodes, and stops at max_paths |
| `GraphPaths.Round` | app/services/graph.py:178-210 | one turn of the queue keeps all of this and lowers a measure |
| `GraphPaths.ExplainPaths` | app/services/graph.py:160-219 | distinct simple paths within the bound, shortest first; when no node has more than 1000 edges, no path left out is shorter than one reported, and all are reported when fewer than max_paths are |
| `GraphPaths.PathResponse` | app/services/graph.py:244-280 | the steps of a path follow its edges node by node and end at its end |
| `GraphPaths.StepSays` | app/services/graph.py:244-280 | a step names its edge and both ends, and is worded forwards exactly when it starts at the edge's source |
| `PolicyEngine.Validate` | app/services/policy_engine.py:55-77 | no fault exactly when the bundle is not empty, every definition is acceptable and the ids differ; otherwise the first thing wrong with the first definition that has something wrong |
| `PolicyEngine.AcceptableExactlyWhen` | app/services/policy_engine.py:59-77 | which ids, decisions, risks, conditions and controls a definition may have |
| `PolicyEngine.OneFault` | app/services/policy_engine.py:55-77 | that description fixes the fault |
| `PolicyEngine.EvaluateDefinitions` | app/services/policy_engine.py:36-52 | a valid bundle gives its matching policies strictest first; a faulty one only its fault |
| `PolicyEngine.StrictestIsStable` | app/services/policy_engine.py:52 | the order is a permutation, never rises in rank, and keeps the bundle's order within a decision |
| `PolicyEngine.MatchingMembers` | app/services/policy_engine.py:39-51 | the matches are those of the policies that apply, no more and no fewer |
| `PolicyEngine.MatchesAsWritten` | app/services/policy_engine.py:36-52 | the matches are exactly those the written definitions make: decision, risk, controls, reason and version as given or by default, for the definitions all of whose conditions share a value with the context |
| `PolicyDecision.AddMatches` | app/services/policy.py:57-60 | the loop collects every match's reason, control and id, and the highest risk |
| `PolicyDecision.Evaluate` | app/services/policy.py:25-124 | risk, decision, controls, matched ids and reasons in their order, and the exception that overrides the decision |
| `PolicyDecision.TakenIsFirstToCover` | app/services/policy.py:181-231 | the exception taken is the first in the list whose policy, agent, asset, destination, action and purpose, each where given, are the access's; none is taken exactly when no exception covers the access |
| `PolicyDecision.ContextShows` | app/services/policy.py:39-47 | what the policies see: sensitivity, destination type, status in lower case, action and purpose, and nothing else |
| `PolicyDecision.LowerIs` | app/services/policy.py:44 | lower case changes capital letters only |
| `PolicyDecision.StripTakesSpace` | app/services/policy.py:39 | stripping takes only white space away, and only from the ends |
| `PolicyDecision.StripEnds` | app/services/policy.py:39 | and leaves none at either end |
| `PolicyDecision.ExternalExactlyWhen` | app/services/policy.py:39-40 | a destination is external unless it is one of the agent's list, without the space around it |
| `PolicyDecision.OutsideExactlyWhen` | app/services/policy.py:67-68 | a business domain is outside unless it or the list is empty or it is one of the list |
| `PolicyDecision.ExceedsExactlyWhen` | app/services/policy.py:64 | which sensitivities exceed which ceiling, unknown ones included |
| `PolicyDecision.ResultExactlyWhen` | app/services/policy.py:88-94 | the policies deny exactly for an agent that is not approved, a risk of 80 or a match that denies; otherwise they set conditions exactly for a risk of 50 or a match that does |
| `PolicyDecision.RiskIs` | app/services/policy.py:57-87 | the risk is the highest of the matches', at least 20, plus the cost of the facts, at most 100 |
| `PolicyDecision.ChargesAre` | app/services/policy.py:61-85 | what each fact costs |
| `PolicyDecision.OwnControlsAre` | app/services/policy.py:37-86 | which controls an access gets by sensitivity and action |
| `PolicyDecision.EveryReasonIsGiven` | app/services/policy.py:57-119 | a decision is always explained, nothing is said twice, and every reason of a match, a fact or the exception is given |
| `PolicyDecision.NoPointsWithoutReason` | app/services/policy.py:61-86 | risk is added exactly when a reason is |
| `PolicyDecision.AllowedAccess` | app/services/policy.py:57-94 | what the policies allow has an approved agent, no excess sensitivity, no training, at most one of the three smaller facts, and no match that denies, sets conditions or carries a risk of 50 |
| `PolicyDecision.MorePoliciesAreStricter` | app/services/policy.py:55-94 | a larger policy set never lowers decision or risk and drops no control |
| `PolicyDecision.OrderIrrelevant` | app/services/policy.py:55-94 | decision, risk, controls and the exception taken do not depend on the order of the policies |
| `PolicyDecision.AddingAPolicy` | app/services/policy.py:55-94 | adding a policy anywhere never lowers the risk or the decision of the policies nor drops one of their controls |
| `PolicyDecision.MilderExactlyWhen` | app/services/policy.py:55-117 | adding a policy makes the final decision milder exactly when it applies under an id that matched nothing before and the exception now taken is scoped to that id and overrides to something below the decision so far |
| `PolicyDecision.DenyBecomesAllow` | app/services/policy.py:97-117 | for every access, two policies and an exception with which adding the second policy turns a denial into an allowance |
| `PolicyDecision.ScopedExceptionArrives` | app/services/policy.py:97-116 | an exception scoped to a policy applies from the moment that policy matches |
| `PolicyCache.StepKeepsInv` | app/services/policy.py:147-178 | every check, load, store, invalidation and activation keeps what follows |
| `PolicyCache.CallGoes` | app/services/policy.py:147-178 | a call is served what is cached exactly when that expires after its clock reading; otherwise it is served the newest set, which is kept until the reading plus the lifetime |
| `PolicyCache.RunKeepsInv` | app/services/policy.py:138-178 | every set served was in force at an instant less than the lifetime before the call's clock reading and no later than the serving, in any number of processes |
| `PolicyCache.EveryServingIsBounded` | app/services/policy.py:147-178 | the same from an empty cache, for every set served in every run |
| `PolicyCache.StaleExactlyWhen` | app/services/policy.py:138-178 | after an invalidation a call that begins later in that process can be served a version older than the one current at it exactly when, at the invalidation, a call there has loaded an older version under a clock reading less than a lifetime old |
| `PolicyCache.StaleAfterInvalidation` | app/services/policy.py:138-178 | a run in which a call begun after activation and invalidation is served the old set |
| `PolicyCache.NewerThanTheLookup` | app/services/policy.py:151-155 | a run in which the set served came into force only after the call's clock reading |
| `PolicyCache.ProcessCache.Look` | app/services/policy.py:151-156 | a hit exactly when an entry has not expired |
| `PolicyCache.ProcessCache.Invalidate` | app/services/policy.py:138-144 | exactly the tenant's entries go, or all |
| `RolloutCache.StepKeepsInv` | app/services/policy_rollouts.py:276-310 | every step with the lock held, and every commit outside it, keeps what follows |
| `RolloutCache.CallBegins` | app/services/policy_rollouts.py:276-283 | a call begins with its clock reading and waits for the lock |
| `RolloutCache.CallLooks` | app/services/policy_rollouts.py:276-287 | with the lock a call is served what is cached exactly when that expires after its clock reading, and keeps the lock otherwise |
| `RolloutCache.CallLoads` | app/services/policy_rollouts.py:282-291 | it reads the newest rollout, then the newest bundles, keeps them until its reading plus the lifetime, and lets go of the lock |
| `RolloutCache.RunKeepsInv` | app/services/policy_rollouts.py:276-310 | both halves of a served configuration were in force within the lifetime before the call's clock reading, and at or after the version current at the invalidation before the call |
| `RolloutCache.EveryServingIsBounded` | app/services/policy_rollouts.py:276-310 | the same from an empty cache, for every configuration served in every run |
| `RolloutCache.NothingOlderThanTheCommit` | app/services/policy_rollouts.py:81-85 | whatever runs before and after an invalidation, every configuration served to a call that begins after it in that process was read at the version current at the invalidation or later, both halves |
| `RolloutCache.ServedWithFloor` | app/services/policy_rollouts.py:276-292 | a call is served with the floor it began with |
| `PolicyLifecycle.ProposeLeaves` | app/v13.py:276-303 | a proposed bundle is a draft of its author's that nobody approved |
| `PolicyLifecycle.PolicyStore.SubmitBundle` | app/v13.py:321-332 | only a draft is submitted |
| `PolicyLifecycle.PolicyStore.ApproveBundle` | app/v13.py:349-366 | only a pending bundle is approved, by a delegated identity other than its creator or in development |
| `PolicyLifecycle.PolicyStore.SetActive` | app/v13.py:820-833 | the bundle becomes active and the one that was active retires |
| `PolicyLifecycle.PolicyStore.ActivateBundle` | app/v13.py:380-392 | only an approved bundle is activated |
| `PolicyLifecycle.PolicyStore.RollbackBundle` | app/v13.py:395-407 | only a retired or approved bundle is rolled back to |
| `PolicyLifecycle.PolicyStore.CreateRollout` | app/services/policy_rollouts.py:33-80 | a rollout begins in shadow or canary over an approved bundle while none is active, with its event |
| `PolicyLifecycle.PolicyStore.AdvanceRollout` | app/services/policy_rollouts.py:95-142 | the allowed stage changes with their traffic, status, activation and event; a refusal changes nothing |
| `PolicyLifecycle.AdvanceLeaves` | app/services/policy_rollouts.py:95-142 | the first thing wrong with an advance, in the tables' own terms, and what an accepted one leaves: stage, traffic, status, the switched bundles and the event |
| `PolicyLifecycle.AdvanceExactlyWhen` | app/services/policy_rollouts.py:95-121 | an advance is accepted exactly from an active rollout in a stage that leads to the one asked for (enforcement from canary alone, canary from shadow or paused, shadow from canary or paused, paused from shadow or canary, completion from all three), with a traffic from 1 to 99 for a canary and an approved bundle for enforcement |
| `PolicyLifecycle.EnforcedWasCanary` | app/services/policy_rollouts.py:95-142 | over every run: an enforced rollout was in canary, with its bundle approved, right before it was enforced, and its bundle active right after |
| `PolicyLifecycle.StageOkExactlyWhen` | app/services/policy_rollouts.py:106-117 | which traffic and status a stage fixes |
| `PolicyLifecycle.StepKeepsInv` | app/services/policy_rollouts.py:33-142 | every operation keeps the invariant, and a repeated stage key never conflicts in the outbox |
| `PolicyLifecycle.RunKeepsInv` | app/v13.py:320-406 | over all runs of requests one after the other at most one bundle and one rollout is active, every bundle ever active was approved by another identity or in development, and the stage fixes traffic and status |
| `PolicyLifecycle.EveryRun` | app/v13.py:320-406 | the same from empty tables, one request after the other |
| `PolicyLifecycle.CompletedNeverMoves` | app/services/policy_rollouts.py:95-104 | over all runs of requests one after the other a completed rollout never changes again, and no rollout changes its bundle |
| `PolicyLifecycle.ApprovalStays` | app/v13.py:349-406 | an approval once given stays with its bundle |
| `PolicyRequests.ActiveMeansApproved` | app/v13.py:349-406 | however requests overlap, a bundle that was ever active was approved by another identity or in development |
| `PolicyRequests.ProposeIsAtomic` | app/v13.py:276-303 | a bundle is proposed in one step |
| `PolicyRequests.LoadExactlyWhen` | app/v13.py:321-407 | a request goes on after loading its bundle exactly when the operation is accepted |
| `PolicyRequests.CreateExactlyWhen` | app/services/policy_rollouts.py:33-80 | a rollout is created in one step, exactly when the operation is accepted |
| `PolicyRequests.WriteAlone` | app/v13.py:321-366 | a submission or approval that nothing comes between does what the operation does |
| `PolicyRequests.ActivationAlone` | app/v13.py:380-407 | so does an activation or rollback |
| `PolicyRequests.AdvanceAlone` | app/services/policy_rollouts.py:95-142 | so does an advance short of enforcement |
| `PolicyRequests.EnforcementAlone` | app/services/policy_rollouts.py:95-142 | so does an enforcement, which goes on after its check exactly when the bundle is approved |
| `PolicyRequests.RunKeepsInv` | app/v13.py:380-407 | while no two activations overlap between looking up the active bundle and committing, the bundle looked up is the only one that can be active |
| `PolicyRequests.OneActiveApart` | app/v13.py:820-833 | so at most one bundle is active, whatever else overlaps |
| `PolicyRequests.ActiveAfterBoth` | app/v13.py:820-833 | after two activations that both looked before either committed exactly their own bundles are active |
| `PolicyRequests.TwoWhenOverlapping` | app/v13.py:820-833 | wherever two bundles are approved, activating both side by side leaves both active |
| `RolloutRequests.NeverConflicts` | app/services/policy_rollouts.py:95-142 | however advances overlap, the event of an advance is fixed by its key and never conflicts in the outbox |
| `RolloutRequests.RunKeepsOpen` | app/services/policy_rollouts.py:33-142 | however requests overlap, at most one rollout is not done, a done one stays done, and no rollout changes its bundle |
| `RolloutRequests.OneOpenRollout` | app/services/policy_rollouts.py:33-142 | so from empty tables at most one rollout is active |
| `RolloutRequests.FetchExactlyWhen` | app/services/policy_rollouts.py:95-106 | an advance goes on exactly from a rollout loaded active in a stage that leads to the one asked for, with a traffic for a canary |
| `RolloutRequests.CommitEnters` | app/services/policy_rollouts.py:95-142 | however requests overlap, a committed advance enters its stage from a loaded one that leads there, enforcement from a canary |
| `RolloutRequests.StageKeptExactlyWhen` | app/services/policy_rollouts.py:95-125 | after an advance's commit the stage fixes traffic and status exactly when both hold: the stage is final or the row was not done, and the traffic was written or the row's is what the stage needs |
| `RolloutRequests.DoneChangesExactlyWhen` | app/services/policy_rollouts.py:95-142 | a commit changes a done rollout exactly when it advances that rollout, loaded it active, and does not write the very completion the row holds |
| `RolloutRequests.RunKeepsInv` | app/services/policy_rollouts.py:95-142 | while no two advances of one rollout overlap, whatever else does, the stage fixes traffic and status and a done rollout never changes |
| `RolloutRequests.CompletedStaysApart` | app/services/policy_rollouts.py:95-142 | the same from empty tables and on from any state a run reaches |
| `RolloutRequests.PausedAndCompleted` | app/services/policy_rollouts.py:95-142 | from every active canary: pausing and completing it side by side leaves a row that is paused and completed |
| `RolloutRequests.CompletedThenEnforced` | app/services/policy_rollouts.py:95-142 | from every active canary with an approved bundle: enforcing and completing it side by side enforces a completed rollout and activates its bundle |
| `Jobs.BackgroundJob.Claim` | app/services/jobs.py:95-101 | the conditional update claims exactly a pending row and counts the attempt |
| `Jobs.BackgroundJob.Begin` | app/services/jobs.py:106-112 | a cancelled job ends before its work |
| `Jobs.BackgroundJob.Fail` | app/services/jobs.py:185-206 | failure ends a job without attempts left and otherwise delays it |
| `Jobs.BackgroundJob.Recover` | app/services/jobs.py:242-272 | a stale claim fails a job without attempts left and otherwise frees it |
| `Jobs.BackgroundJob.Retry` | app/services/jobs.py:285-297 | accepted exactly when the loaded status is failed or cancelled; the row becomes pending, and flag and attempts are cleared unless they were loaded clear |
| `Jobs.FailureOutcome` | app/services/jobs.py:185-206 | a failure ends the job as cancelled or failed exactly when the worker saw the flag or no attempts are left; otherwise it waits as long as the provider asked, or 1 to 300 seconds |
| `Jobs.RecoveryOutcome` | app/services/jobs.py:242-272 | recovery finds a claim older than the timeout and frees the job exactly when attempts are left |
| `Jobs.WorkOutcome` | app/services/jobs.py:106-184 | work begins exactly when the flag is clear, and success ends the job as completed exactly when it still is |
| `Jobs.RequestOutcome` | app/services/jobs.py:275-297 | what a cancellation and a retry write, by what they loaded |
| `Jobs.ChosenExactlyWhen` | app/services/jobs.py:81-94 | a worker chooses exactly a pending job whose time has come and that is not cancelled |
| `Jobs.RoundsCount` | app/services/jobs.py:81-297 | a new round begins exactly when a row that was not pending becomes so |
| `Jobs.StepKeepsInv` | app/services/jobs.py:81-297 | every step keeps what follows |
| `Jobs.RunKeepsInv` | app/services/jobs.py:81-297 | while recoveries and retries come in time: a pending row is claimed at most once each time; pending means attempts left, running means between one and the most; attempts count the claims since the last retry; work begins only for claims made while the cancellation flag was clear |
| `Jobs.RetryKeptIffTimely` | app/services/jobs.py:285-297 | a retry's commit keeps all this exactly when no worker holds the job and it loaded attempts to reset or there are none to reset |
| `Jobs.LateRetryOverruns` | app/services/jobs.py:285-297 | a retry that loaded no attempts and is committed after the last one leaves the row pending, to be claimed once too often |
| `Jobs.EveryRun` | app/services/jobs.py:81-297 | the same from a new job |
| `Jobs.ClaimsAreBounded` | app/services/jobs.py:81-103 | without retries a job is claimed at most max_attempts times, whatever crashes |
| `Jobs.LastAttemptEnds` | app/services/jobs.py:185-206 | once the last attempt is claimed, the next change of status ends the job |
| `Jobs.NeverStuck` | app/services/jobs.py:81-103 | a pending job that is not cancelled can be chosen, and a running one whose worker died can be recovered |
| `Jobs.CancelledClaimsDoNoWork` | app/services/jobs.py:106-112 | once the cancellation flag is set and until a retry, no later claim does its work |
| `Jobs.CancellationHolds` | app/services/jobs.py:275-297 | a cancellation's commit leaves the flag clear exactly when it loaded the flag set and the flag is clear again, and then a retry came in between |
| `Jobs.LostExactlyWhen` | app/services/jobs.py:275-297 | the same at any point between the loading and the commit |
| `Jobs.LostCancellation` | app/services/jobs.py:275-297 | for every number of attempts, a reachable state with a cancellation under way whose commit is followed by a claim that begins the job's work |
| `Jobs.StrandedAfter` | app/services/jobs.py:185-297 | a step leaves a job pending with its flag set exactly when it is a failure that did not see the flag or a recovery, with attempts left, a cancellation that loaded the flag clear and another status before the row became pending, or a retry that loaded the flag clear before it was set; or when it finds the job so and is neither a claim of it, a cancellation that loaded it pending, nor a retry that loaded the flag set |
| `Jobs.StrandedExactlyWhen` | app/services/jobs.py:185-297 | a run of a new job leaves it so exactly when the last step that strands or frees it strands it |
| `Jobs.CancelledEnds` | app/services/jobs.py:178-282 | when no step strands it, a cancelled job without a live worker has ended or can be recovered, which ends it exactly when no attempts are left |
| `Jobs.CancelledButPending` | app/services/jobs.py:185-297 | for each of the four causes and every job with more than one attempt, a reachable state in which it is cancelled yet pending, with nothing under way, never chosen, recovered or retried |
| `Numbers.BackoffGrows` | app/services/jobs.py:203 | the retry delay lies between one second and 300 and never shrinks |
| `Numbers.BackoffDoubles` | app/services/outbox.py:153-157 | it is one second before any attempt and doubles until it is 300 |
| `OutboxDispatch.OutboxRow.Claim` | app/services/outbox.py:113-131 | the conditional update claims exactly a pending event |
| `OutboxDispatch.OutboxRow.Fail` | app/services/outbox.py:148-160 | a failed dispatch ends the event or delays it |
| `OutboxDispatch.OutboxRow.Recover` | app/services/outbox.py:77-96 | exactly a stale claim with attempts left is freed |
| `OutboxDispatch.FailureOutcome` | app/services/outbox.py:146-158 | a dispatcher that claimed the event as attempt n and fails ends it exactly when n is the last attempt; otherwise it is pending, available 1 to 300 seconds later |
| `OutboxDispatch.FailedMeansSpent` | app/services/outbox.py:118-158 | over every run from an event just committed: it has failed for good only after as many claims as it is allowed |
| `OutboxDispatch.PassReads` | app/services/integrations.py:73-88 | a pass goes over the endpoints that were enabled when it read the table |
| `OutboxDispatch.PassGoesOn` | app/services/integrations.py:81-121 | an endpoint that does not take the event is done with; one that does gets a row if it has none and a job unless it is delivered |
| `OutboxDispatch.PassEnds` | app/services/outbox.py:128-146 | a pass with no endpoint left ends, and the event is dispatched |
| `OutboxDispatch.ChangeMovesNobody` | app/services/outbox.py:118-158 | a change of the endpoint table moves no dispatcher |
| `OutboxDispatch.RecoveryOutcome` | app/services/outbox.py:76-96 | recovery finds a claim older than the timeout with attempts left, and the event is pending at once |
| `OutboxDispatch.ChosenExactlyWhen` | app/services/outbox.py:97-109 | a dispatcher chooses exactly a pending event whose time has come |
| `OutboxDispatch.StepKeepsInv` | app/services/outbox.py:65-154 | every step of dispatchers, crashes and endpoint changes keeps what follows |
| `OutboxDispatch.RunKeepsInv` | app/services/outbox.py:86-154 | an endpoint has at most one row for the event; when the event is marked dispatched, every endpoint that wanted it throughout that pass has its row, and a job unless it was delivered |
| `OutboxDispatch.EveryRun` | app/services/outbox.py:86-154 | the same from an event just committed |
| `OutboxDispatch.SteadyMeansThroughout` | app/services/integrations.py:72-112 | an endpoint is steady in a pass exactly when it wanted the event when the pass read the table and ever since |
| `Integrations.TargetedExactlyWhen` | app/services/integrations.py:73-88 | a disabled endpoint is never chosen; an enabled one exactly when its id is given or, without ids, when it takes all events or this kind |
| `Integrations.DeliveryTable.QueueOne` | app/services/integrations.py:85-121 | an endpoint's row for the key is found or made, and gets a job unless it is delivered |
| `Integrations.DeliveryTable.QueueEvent` | app/services/integrations.py:61-121 | every targeted endpoint ends up covered, new rows are only for targeted endpoints, and keys stay unique |
| `Integrations.DeliveryTable.Deliver` | app/services/integrations.py:127-200 | a delivered row is answered for without sending, a missing row and a missing or disabled endpoint are errors that change nothing, and otherwise the attempt counts and the answer fixes the status |
| `AuthzenPaging.PageResults` | app/services/authzen_search.py:228-261 | a page holds the permitted candidates of what it scanned, within its limit; it stops early only when full, and ends the search only when it scanned everything without filling up |
| `AuthzenPaging.WindowIs` | app/services/authzen_search.py:214-220 | a query brings all that is left, or the first 5001 of it |
| `AuthzenPaging.PageIsPageOf` | app/services/authzen_search.py:237-254 | that description fixes the page |
| `AuthzenPaging.PageMovesOn` | app/services/authzen_search.py:240-254 | a page with a token consumed something and stays inside the candidates |
| `AuthzenPaging.PagesFit` | app/services/authzen_search.py:237-247 | no page is longer than its limit |
| `AuthzenPaging.PagesAreTheFilter` | app/services/authzen_search.py:148-261 | following the offsets ends, and the pages together are the permitted candidates in order, each once |
| `AuthzenTokens.TokenRoundTrip` | app/services/authzen_search.py:287-310 | a token reads back as its payload exactly when its signature holds no dot, and is refused otherwise |
| `AuthzenTokens.NoTokenBegins` | app/services/authzen_search.py:264-275 | without a token, or with an empty one, a search begins at the beginning |
| `AuthzenTokens.FollowedExactlyWhen` | app/services/authzen_search.py:276-285 | any other token is followed exactly when it reads as an object of this search, tenant and request with an offset that is not negative |
| `AuthzenTokens.FollowToken` | app/services/authzen_search.py:264-310 | a token leads to its offset for the same search, tenant and request exactly when its signature holds no dot; for any other it is refused |
| `AuthzenTokens.TokensYieldTheFilter` | app/services/authzen_search.py:228-310 | a search that sends back its tokens ends; it reaches the last page, and then has handed out the permitted candidates in order and each once, exactly when no token on the way has a dot in its signature, and otherwise a beginning of that list |
| `Base64.EncodedLength` | connectors/postgresql.py:138-140 | unpadded base64 of n bytes has ceil(4n/3) characters |
| `Base64.Base64RoundTrip` | connectors/postgresql.py:140-150 | stripping the padding and putting it back loses nothing |
| `Base64.AlphabetIs` | connectors/postgresql.py:140-150 | the 64 characters in their order, the last two by either spelling |
| `Base64.NonAsciiRefused` | connectors/postgresql.py:146-150 | text with a character outside ASCII is never read |
| `PostgresCursor.Checked` | connectors/postgresql.py:153-159 | accepted exactly when the value is a list of two strings of at most 63 characters |
| `PostgresCursor.DecodesExactlyWhen` | connectors/postgresql.py:143-159 | an empty cursor or one of more than 2048 characters is refused, and any other is judged by what it holds |
| `Ascii.FromBytesExactlyWhen` | connectors/postgresql.py:150-153 | bytes are text exactly when all are below 128, and then each is its character |
| `PostgresCursor.CursorFits` | connectors/postgresql.py:138-147 | a cursor of two names of at most 63 characters has at most 2026 characters, within the 2048 allowed |
| `PostgresCursor.DecodeEncoded` | connectors/postgresql.py:138-159 | decoding gives the names with surrogate pairs joined |
| `PostgresCursor.CursorRoundTrip` | connectors/postgresql.py:138-159 | decoding gives the names back exactly when neither spells out a surrogate pair |
| `KeysetWalk.SelectsExactlyWhen` | connectors/postgresql.py:76-133 | the first page starts with the first table, later ones beyond the table they are given, and a filter leaves its schemas |
| `KeysetWalk.ScanIsPage` | connectors/postgresql.py:43-73 | a page holds the first tables beyond the cursor, complete or full, and its cursor reads back as its last table |
| `KeysetWalk.WalkCovers` | connectors/postgresql.py:43-133 | over a changing catalog the pages ascend strictly and hold every table beyond the cursor that existed throughout |
| `KeysetWalk.FullWalk` | connectors/postgresql.py:43-133 | a whole walk holds each such table exactly once, and none that never existed |
| `KeysetWalk.SteadyWalkCompletes` | connectors/postgresql.py:43-133 | while the catalog does not change a walk completes, after as many pages as its tables fill, with exactly those tables in order |
| `JsonStrings.EscapeIs` | app/services/evidence_signing.py:21-27 | how each code point is written: with a letter of its own, as itself, or by the four digits of it or of its surrogates |
| `JsonStrings.HexDigitsAre` | app/services/evidence_signing.py:21-27 | hexadecimal digits are written in lower case and read in either |
| `JsonStrings.ScanLiteral` | app/services/evidence_signing.py:21-27 | reading any written string gives it with its surrogate pairs joined |
| `JsonStrings.LiteralRoundTrip` | app/services/evidence_signing.py:21-27 | a string reads back as itself exactly when it spells out no surrogate pair |
| `TimeStamps.IsoSays` | app/services/evidence_signing.py:481-485 | every datetime is written as the digits of year, month, day, hour, minute and second with their separators, six digits of microseconds exactly when there are any, and Z |
| `TimeStamps.MomentsApart` | app/services/evidence_signing.py:21-27 | two different datetimes never have the same canonical JSON |
| `CanonicalJson.NormalIsOrdered` | app/services/evidence_signing.py:21-27 | what is written has no stamps and strictly ascending keys |
| `CanonicalJson.MergedIsDistinct` | app/services/evidence_signing.py:94 | building dictionaries leaves no key twice |
| `JsonText.ItemsSeparated` | app/services/evidence_signing.py:21-27 | items are separated by a comma and nothing else |
| `JsonText.PairsSeparated` | app/services/evidence_signing.py:21-27 | so are pairs, and a key from its value by a colon |
| `JsonText.NumberText` | app/services/evidence_signing.py:21-27 | a number is written as its digits, after a minus sign exactly when it is negative |
| `JsonText.NaturalReads` | app/services/evidence_signing.py:90-95 | what is read is the number of the longest run of digits or of a leading zero, unless a fraction or an exponent follows |
| `JsonText.StringBegins` | app/services/evidence_signing.py:90-95 | a string begins with a quotation mark |
| `JsonText.ItemsRead` | app/services/evidence_signing.py:90-95 | items are values separated by commas |
| `JsonText.PairsRead` | app/services/evidence_signing.py:90-95 | pairs are a string, a colon and a value, separated by commas |
| `JsonText.SpaceExactlyWhen` | app/services/evidence_signing.py:90-95 | which characters are white space |
| `JsonText.ReadPrinted` | app/services/evidence_signing.py:21-27 | every printed value reads back, whatever follows it |
| `JsonText.LoadsCanonical` | app/services/evidence_signing.py:21-27 | reading canonical JSON gives the normal form with pairs joined and equal keys merged |
| `JsonLaws.LoadsWhole` | app/services/evidence_signing.py:21-27 | without spelled-out surrogate pairs it gives exactly the normal form |
| `JsonLaws.CanonicalReparse` | app/services/evidence_signing.py:21-27 | reading and writing again gives the same bytes exactly when the sorted keys still ascend once pairs are joined |
| `JsonLaws.CanonicalFixedPoint` | app/services/evidence_signing.py:21-27 | canonical JSON is a fixed point for every value with stamps and arbitrary strings whose keys spell out no surrogate pair |
| `JsonLaws.SpelledKeysBreakIt` | app/services/evidence_signing.py:21-27 | an object for which it is not |
| `JsonLaws.FillingOrderIrrelevant` | app/services/evidence_signing.py:21-27 | the order in which a dictionary was filled does not show |
| `JsonLaws.CanonicalInjective` | app/services/evidence_signing.py:21-27 | equal canonical JSON means equal normal forms |
| `EvidencePackages.TakeRows` | app/services/evidence_packages.py:584-602 | one category takes its oldest rows up to what is left, and says when it was cut |
| `EvidencePackages.PackageSections` | app/services/evidence_packages.py:524-606 | each section holds the oldest rows that still fit, the count is the number of rows, and truncation is reported exactly when some category was reached full or did not fit |
| `EvidencePackages.OverflowsExactlyWhen` | app/services/evidence_packages.py:524-606 | truncation means that some category was reached full or did not fit |
| `EvidencePackages.FillSectionDigests` | app/services/evidence_signing.py:416-420 | the loop fills in one digest for the analytics and one for each category |
| `EvidencePackages.RecordDigestsHold` | app/services/evidence_signing.py:416-420 | there is one digest under each record category's own key, and it is that of its rows |
| `EvidencePackages.PartsHold` | app/services/evidence_packages.py:398-422 | what payload, manifest and document hold under their names |
| `EvidencePackages.FaultsExactlyWhen` | app/services/evidence_signing.py:97-123 | each fault is found exactly when the digest it is about is not the one the package holds |
| `EvidencePackages.InvalidExactlyWhen` | app/services/evidence_signing.py:86-105 | a package is not examined exactly when it is no object with a manifest and records that are objects |
| `EvidencePackages.AssuranceSays` | app/services/evidence_signing.py:55-84 | what a signed and an unsigned manifest's assurance says |
| `EvidencePackages.SectionDigestsOfNormal` | app/services/evidence_signing.py:116-119 | digests of what was read back are those of what was written |
| `EvidencePackages.SignedManifestMatches` | app/services/evidence_signing.py:120-123 | the digest the signer notes is the manifest's own after reading back |
| `EvidencePackages.PackageVerifies` | app/services/evidence_packages.py:398-422 | every written package whose keys spell out no surrogate pair, whatever its strings, signed or not, passes the payload, section and manifest digest checks |
| `EvidencePackages.ProgramPackageVerifies` | app/services/evidence_packages.py:398-422 | the same under the key names the program uses |
| `EvidencePackages.ProgramNamesRead` | app/services/evidence_packages.py:398-427 | what the program's key names are |
| `EvidencePackages.OnlyTheIssuedPayloadPasses` | app/services/evidence_signing.py:111-115 | with a digest that tells two payloads apart, exactly the issued one passes |
| `Receipts.ReceiptRow.Claim` | app/services/runtime_authorization.py:334-348 | the conditional update claims exactly a pending receipt |
| `Receipts.ReceiptRow.Sign` | app/services/runtime_authorization.py:350-358 | the assurance is made from the manifest as read back from the row |
| `Receipts.ReceiptRow.Fail` | app/services/runtime_authorization.py:360-371 | a failed signature ends the row or delays it |
| `Receipts.ReceiptRow.Recover` | app/services/runtime_authorization.py:300-317 | exactly a stale claim with attempts left is freed |
| `Receipts.FailureOutcome` | app/services/runtime_authorization.py:360-371 | a failed signature ends the receipt exactly when its last attempt is used; otherwise it is pending, available 1 to 300 seconds later |
| `Receipts.FailedMeansSpent` | app/services/runtime_authorization.py:334-371 | over every run: a receipt has failed for good only after as many claims as it is allowed |
| `Receipts.RecoveryOutcome` | app/services/runtime_authorization.py:300-317 | recovery finds a claim older than the timeout with attempts left, and the receipt is pending at once |
| `Receipts.IssuedSays` | app/services/runtime_authorization.py:90-169 | what a receipt is stored with: pending under a profile, unsigned otherwise |
| `Receipts.SigningOutcome` | app/services/runtime_authorization.py:350-358 | what a signer writes and what it leaves alone |
| `Receipts.DigestsHoldExactlyWhen` | app/services/runtime_authorization.py:268-292 | a receipt passes exactly when its manifest reads as an object with the stored digest, and a signature notes that digest too |
| `Receipts.IssuedHolds` | app/services/runtime_authorization.py:90-169 | a receipt as issued, pending or unsigned, has a valid stored digest and no digest fault |
| `Receipts.SignedDigest` | app/services/runtime_authorization.py:350-354 | what the signer notes matches what verification recomputes |
| `Receipts.RunKeepsInv` | app/services/runtime_authorization.py:268-378 | through claims, failures, recoveries and late workers every receipt keeps its stored digest valid, and no idempotency key has two receipts |
| `Receipts.EveryRun` | app/services/runtime_authorization.py:268-378 | the same from an empty table |
| `Receipts.ProgramEveryRun` | app/services/runtime_authorization.py:268-378 | the same under the key names the program uses |
| `Receipts.KeyKeepsReceipt` | app/services/runtime_authorization.py:48-60 | a receipt keeps key, request digest and manifest until it is purged |
| `Receipts.RepeatedKey` | app/services/runtime_authorization.py:48-60 | repeating a key replays the first decision for the same request digest and conflicts for another |
| `ServiceAccounts.AccountStore.AuthenticateKey` | app/services/service_accounts.py:57-96 | a key is accepted exactly when its credential is usable, the secret matches and the account is active |
| `ServiceAccounts.AccountStore.RotateAccount` | app/services/service_accounts.py:99-162 | a rotation's five refusals in their order, and the rows it leaves |
| `ServiceAccounts.AccountStore.CompleteRotation` | app/services/service_accounts.py:165-187 | the replaced credential is revoked and the rotation is done |
| `ServiceAccounts.AccountStore.DisableAccount` | app/services/service_accounts.py:190-212 | the loop revokes exactly the account's credentials that were not revoked |
| `ServiceAccounts.AccountStore.LifecycleReport` | app/services/service_accounts.py:242-291 | the counts of usable credentials, per account and in all |
| `ServiceAccounts.CreateLeaves` | app/services/service_accounts.py:22-54 | the one refusal, and otherwise an active account with a credential that lives the days asked for, or the default when none or zero is |
| `ServiceAccounts.AuthenticateLeaves` | app/services/service_accounts.py:57-96 | which credentials open their account, and what that notes |
| `ServiceAccounts.RotateLeaves` | app/services/service_accounts.py:99-162 | the first thing wrong with a rotation, in the tables' own terms, and the credentials and rotation an accepted one leaves |
| `ServiceAccounts.CompleteLeaves` | app/services/service_accounts.py:165-187 | what completing revokes |
| `ServiceAccounts.DisableLeaves` | app/services/service_accounts.py:190-212 | what disabling revokes |
| `ServiceAccounts.StepKeepsInv` | app/services/service_accounts.py:22-212 | every operation at every later instant keeps what follows, one operation after the other |
| `ServiceAccounts.RunKeepsInv` | app/services/service_accounts.py:22-212 | the same over every run |
| `ServiceAccounts.AtMostTwo` | app/services/service_accounts.py:57-187 | at most two credentials of an account authenticate, now and at any later instant, wherever every credential but the newest is revoked, expired or being retired |
| `ServiceAccounts.EveryRun` | app/services/service_accounts.py:22-255 | from empty tables, over every run of operations one after the other: at most two credentials authenticate, and the report counts exactly them |
| `AccountRequests.RunKeepsInv` | app/services/service_accounts.py:99-212 | over every run of requests side by side in which no two rotations of one account overlap, rows and pending rotations stay in order |
| `AccountRequests.AloneIsAtomic` | app/services/service_accounts.py:99-212 | a request that nothing comes between plans nothing exactly when the operation changes nothing, and otherwise leaves the operation's rows |
| `AccountRequests.DirectIsAtomic` | app/services/service_accounts.py:22-96 | creating an account and authenticating are one step each |
| `AccountRequests.AtMostTwoApart` | app/services/service_accounts.py:99-212 | so at most two credentials of an account authenticate, whatever completions, disablings and rotations of other accounts overlap and whatever crashes |
| `AccountRequests.OpenAfterBoth` | app/services/service_accounts.py:99-162 | which credentials open an account right after two rotations that both read before either committed |
| `AccountRequests.ThreeWhenOverlapping` | app/services/service_accounts.py:99-162 | wherever one rotation with a grace period could begin, two that overlap leave three credentials that authenticate |
| `AccountRequests.DisabledForGood` | app/services/service_accounts.py:190-212 | a disabled account stays so however requests overlap |
| `ServiceAccounts.RotationTakesEffect` | app/services/service_accounts.py:137-158 | right after a rotation the new credential authenticates, and the replaced one exactly until its grace or its life ends |
| `ServiceAccounts.ReplacesLatestIssued` | app/services/service_accounts.py:118-128 | the replaced credential is the latest issued of those neither revoked nor expired |
| `ServiceAccounts.RetiredAuthenticatesAgain` | app/services/service_accounts.py:118-145 | a rotation that picks a retired credential makes it authenticate again |
| `ServiceAccounts.RevivedExactlyWhen` | app/services/service_accounts.py:57-212 | an existing credential that did not authenticate before an operation does after it exactly when it was retired and its account is rotated with a grace period while it is the latest that is neither revoked nor expired |
| `ServiceAccounts.RetiredCanBeLatest` | app/services/service_accounts.py:118-128 | a run that reaches such a state |
| `ServiceAccounts.DisabledForGood` | app/services/service_accounts.py:190-212 | none of a disabled account's credentials ever authenticates |
| `ServiceAccounts.DisableTakesEffect` | app/services/service_accounts.py:190-212 | from the disabling on, at once and over every run, nothing opens the account |
| `ServiceAccounts.ReportCountsAuthenticating` | app/services/service_accounts.py:247-255 | in every reachable state the report counts exactly the credentials that authenticate |
| `ServiceAccounts.TotalCountsAuthenticating` | app/services/service_accounts.py:276-284 | and its total is the number of all that authenticate |
| `Ownership.CampaignRows.Launch` | app/services/ownership.py:79-111 | a draft gets one pending assignment per matched asset up to the limit, and becomes active |
| `Ownership.CampaignRows.Change` | app/services/ownership.py:114-205 | which requests a loaded status accepts, and that the status is written only when it differs from the loaded one |
| `Ownership.CampaignRows.CompleteIfReady` | app/services/ownership.py:264-290 | an active campaign with nothing open completes |
| `Ownership.OpensIffReopens` | app/services/ownership.py:114-205 | with nothing open a step opens an assignment exactly when it is a rejection of one that was pending when loaded and has been closed since |
| `Ownership.KeptIffTimely` | app/services/ownership.py:79-290 | a step keeps what follows exactly when it is not such a rejection of a campaign that is completed or about to be, nor a second launch of one about to be |
| `Ownership.TooLateReopens` | app/services/ownership.py:79-290 | such a rejection or launch leaves a completed campaign with an open assignment, at once or one step later |
| `Ownership.RunKeepsInv` | app/services/ownership.py:79-290 | while no rejection or launch comes too late, a completed campaign has nothing open and an active one with nothing open is about to be completed, unless a request died |
| `Ownership.EveryTimelyRun` | app/services/ownership.py:79-290 | the same from a draft |
| `Ownership.QuietMeansSettled` | app/services/ownership.py:264-290 | when no request is under way and none died, completed means exactly nothing open |
| `Ownership.LateWriteReopens` | app/services/ownership.py:127-169 | a run in which such a rejection reopens an assignment of a completed campaign |
| `Ownership.LaunchesOnce` | app/services/ownership.py:79-111 | a launch leaves exactly its own assignments exactly when the campaign is still a draft at its commit |
| `Ownership.OverlappingLaunchesDuplicate` | app/services/ownership.py:79-111 | two launches that loaded the same draft leave two assignments for each asset, for every number of assets |

## Left out

- HTTP handlers, the web interface, the MCP server, connectors other than PostgreSQL, migrations, telemetry, cloud clients, SCIM, OpenSearch and regular-expression classification.
- Cryptography: SHA-256 is an arbitrary function, injective only where a statement says so; HMAC is an arbitrary function to 32 bytes; signature algorithms and trust profiles are not modelled.
- Daylight saving: the search results hold for any local-time function; the completeness results are for a fixed offset.
- The range of Python's datetime: years are unbounded in both directions.
- Text outside ASCII in cron expressions and policy ids.
- Clock strings of maintenance windows (`_clock_minutes`): windows hold minutes after midnight.
- Floating-point numbers in JSON: numbers are integers, and a text with a fraction or exponent is not read.
- Payloads of cursors and tokens outside ASCII: decoding refuses them; the program would read them as UTF-8.
- The confidence value of a policy decision and the distinction between the booleans and the numbers 0 and 1 in policy conditions.
- Candidate queries of AuthZEN searches beyond one ordered list that does not change during a walk, and a policy decision that changes between pages.
- ProviderBudget.RunKeepsInv: does not model reconfiguring while consumers are under way; a configured row starts a new run.
- CronFields.ParseCronField: does not model the error for an empty set of values, because an accepted field always denotes some value.
- Jobs.RunKeepsInv: does not model workers that outlive their claim, because final statuses are written by primary key; recovery comes only when no live worker holds the job, and retries in time (`Jobs.RetryKeptIffTimely` says when they do). Job payloads and the work itself are not modelled.
- OutboxDispatch.RunKeepsInv: does not model a bound on attempts, because a dispatcher that outlives its claim may write an older count; events stuck after a crash on their last attempt stay claimed.
- PolicyLifecycle.RunKeepsInv: does not model two handlers interleaving between their reads and their commits; `PolicyRequests` and `RolloutRequests` do. Review tasks, replays and the assignment of canary traffic to requests are not modelled.
- PolicyRequests.RunKeepsInv: does not model two rollouts created side by side, because creation takes an advisory lock on PostgreSQL; nor two events with one key committed side by side, of which the unique constraint refuses one.
- RolloutCache.RunKeepsInv: does not model the filters of the two queries; a configuration is what the two queries read.
- Receipts.RunKeepsInv: does not model the evaluation that fills a manifest, nor the spelling of the signing time in the stored assurance.
- ServiceAccounts.RunKeepsInv: does not model requests that overlap; `AccountRequests` does. Secrets are modelled only by whether they match, and an account's credentials are issued at different instants.
- AccountRequests.RunKeepsInv: does not model several clock readings within one request, nor the report while a rotation and a disabling of one account overlap.
- Ownership.RunKeepsInv: does not model assets, owners, remediation dates, schedules of campaigns and escalations.
- Integrations.DeliveryTable.Deliver: does not model the request sent, nor two deliveries of one row at once.
