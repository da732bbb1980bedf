# PivotFlow verification model

This project models the stateful cores of PivotFlow's admin layer and console in Dafny and proves what they
promise. `dafny verify dfyconfig.toml` checks everything.

| files | what they model |
|---|---|
| `OAuthProtocol`, `OAuthSafety`, `OAuthTheorems`, `OAuthOutcomes`, `OAuthManager` | the browser login manager: every mutex region and every action of the completion goroutine is one atomic step; the invariant holds over all interleavings; a class with the fields of the source performs exactly these steps. Callback fields are those of RFC 6749, sections 4.1.2 and 4.1.2.1, on a loopback redirect as in RFC 8252, section 7.3 |
| `RequestCache`, `ConsoleCaches` | the console's channel and site-inventory caches with their in-flight tables and generations; the promise callbacks are separate steps, and read-your-writes is proved over all interleavings |
| `RouteSelection`, `RouteRanking`, `RouteReport` | the route diagnosis: pool selection, the explanation that has to agree with it, ranks and traffic shares, and the report put together from the stored channels |
| `ChannelModel`, `ModelEntries`, `ModelNormalisation`, `ModelRefresh`, `ModelDiscovery` | model lists: cleaning with preferences, merge and replace, the scheduled check, and the discovery search over URLs, protocols and keys |
| `ImportBudget`, `ImportRules`, `ImportRun` | credential import: the budget shared by all archives, the order of the files, priorities and the running summary |
| `HealthTimeline`, `Dashboard`, `Sums` | aggregation: weighted merges, grouping, compaction, shares, and what map order can change |
| `ActiveRequests` | the table of requests in flight against the history of calls |
| `AntigravityCredential`, `CredentialFormat`, `CredentialCache` | canonical credentials, their payloads, refresh and completion, and the cache that has to agree with the store: a step system for all interleavings and a class whose regions are its steps |
| `WallpaperTiles` | tile geometry after CSS Backgrounds and Borders Level 3, sections 2.4 and 2.9 |
| `ChannelNames`, `Text`, `Rounding`, `Sorting`, `Wrappers` | the search for a free channel name, and shared vocabulary |

Where the source changes state, the model is a class or an array method whose contract gives the whole new
state as a function of the old one; the properties are lemmas about those functions, runs and reachable
states. Requests to other services, the clock, the store's answers and the choice among cooling channels are
parameters, and each result holds for all their values. A library sort is modelled as a stable insertion sort;
where ties could make another sort differ, the uniqueness of the sorted list is proved or its exact condition is.

Some promises hold only under a condition. For these the exact condition is proved:

- A finished login keeps its ending unless close, which had read it while it was active, cancels it by force
  (`EndingChangesExactly`, `CloseOverridesComplete`).
- A login that has ended and was not cancelled is complete if and only if its commit succeeded
  (`CompleteExactlyWhenCommitted`), provided no error of its exchange or commit has an empty text, which the
  source takes for success (`CompleteMeansCommitted`, `EmptyErrorTextCompletes`). None of the errors that the
  modelled code creates has an empty text; only code below it, such as a transport, could return one.
- start replaces a pending login unless its state token has outer white space, which the cancel trims away
  (`ReplaceSucceedsExactly`, `SpacedTokenIsNotReplaced`); the providers' generators produce no such token.
- A second normalisation of a model list changes nothing unless prefixes are cut and a valid name of the list has
  white space right after its last slash (`SecondPass`, `SpacedNameIsChanged`).
- Replacing a model list twice is not idempotent when a switched-off name can spread through a redirect
  (`ReplaceTwice`, `DisablingSpreads`), and reconciling the scheduled check twice is not when an entry in front
  redirects to the choice (`ReconcileTwice`, `CheckMovesOn`).
- What a normalised model list saves depends on the order of its entries when two winners of a collision group differ
  in alias spelling or switch (`ModelNormalisation.OrderFreeExactly`, `SwitchDependsOnOrder`); the upstream behind an
  alias never does (`UpstreamsIgnoreOrder`).
- The averages of a health bucket without any success depend on the map order unless they agree
  (`HealthTimeline.OrderFreeExactly`, `OrderShows`); the SQL store's query gives zero averages to a bucket without
  success, so there they agree.
- The site table depends on the map order when two sites tie on cost, requests and label (`OneTableExactly`,
  `SameNamedSites`).
- A credential payload above 1 MiB can be written but not read back (`ParseInvertsPayload`, `LargePayloadIsLost`).

## Model

| member | source | states |
|---|---|---|
| `OAuthSafety.StepKeeps` | internal/app/admin_codex_auth.go:199-516 | Every atomic step of start, callback, cancel, completion, prune and close keeps the invariant on sessions, table, active login, startMu holder and history |
| `OAuthSafety.RunKeeps` | internal/app/admin_codex_auth.go:199-516 | Any sequence of steps keeps the invariant; sessions keep their place and state token, and the history only grows |
| `OAuthSafety.ReachableInv` | internal/app/admin_codex_auth.go:199-516 | The invariant holds in every state reachable by any interleaving |
| `OAuthTheorems.LiveIffActive` | internal/app/admin_codex_auth.go:199-505 | A login is pending or committing exactly when it is the active one and exactly when it has no finish time; it is listed, no pruning at any time removes it, and there is at most one |
| `OAuthTheorems.PruneForgets` | internal/app/admin_codex_auth.go:498-505 | A pruning pass keeps exactly the live logins and those that finished at most ten minutes ago |
| `OAuthTheorems.StartReplacesOrFails` | internal/app/admin_codex_auth.go:199-263 | The last region of start: without an active login a prepared one becomes the only live login and a failure changes no session; a login that is still active there has a state token with outer white space, and nothing changes but the pruning |
| `OAuthTheorems.ReplaceSucceedsExactly` | internal/app/admin_codex_auth.go:199-213 | start gets rid of the login it found active if and only if that login is still pending and its state token has no outer white space |
| `OAuthTheorems.SpacedTokenIsNotReplaced` | internal/app/admin_codex_auth.go:199-220 | For every token with outer white space, a reachable state in which start fails to replace the login |
| `OAuthTheorems.FirstCallbackIsAccepted` | internal/app/admin_codex_auth.go:294-311 | In every reachable state a callback is accepted if and only if the login is pending and none was accepted before; the full-channel branch and the not-listed branch never decide |
| `OAuthTheorems.CommitDiscipline` | internal/app/admin_codex_auth.go:413-483 | Any commit call is the fourth action of its login, after one callback that was delivered and taken, carried the own state and no error, and after an exchange that produced the committed credential |
| `OAuthTheorems.OneCallback` | internal/app/admin_codex_auth.go:294-311 | No login has a second callback delivered or taken |
| `OAuthTheorems.CancelledLoginNeverCommits` | internal/app/admin_codex_auth.go:335-375 | After a successful cancel without force, by a user or by a replacing start, commit is never called for that login, however the run continues |
| `OAuthTheorems.CancelSucceedsWhenPending` | internal/app/admin_codex_auth.go:335-375 | In every reachable state an unforced cancel succeeds if and only if its trimmed state names a listed pending login, which the pruning before it never hides; then it is recorded and no login stays active, and otherwise no session changes |
| `OAuthTheorems.TerminalStatusStays` | internal/app/admin_codex_auth.go:335-516 | In every later state a finished login shows the same status, error and channel, or it was not cancelled before and is now, by the forced cancel of close |
| `OAuthTheorems.EndingChangesExactly` | internal/app/admin_codex_auth.go:335-516 | The ending of a finished login stays the same through the rest of a run if and only if it was cancelled already or no forced cancel of it has been recorded |
| `OAuthTheorems.CloseOverridesComplete` | internal/app/admin_codex_auth.go:507-516 | A run in which close reads the active login, the login completes with any given channel, and close then turns it into a cancelled one |
| `OAuthTheorems.CompleteExactlyWhenCommitted` | internal/app/admin_codex_auth.go:413-483 | Without an empty error text, a login that has ended and was not cancelled is complete if and only if its commit succeeded, and it shows the committed channel |
| `OAuthTheorems.CompleteMeansCommitted` | internal/app/admin_codex_auth.go:413-483 | A complete login carries the channel id of a successful commit if and only if no exchange or commit failure of that login had an empty error text; otherwise its id is zero |
| `OAuthTheorems.CommittedMeansComplete` | internal/app/admin_codex_auth.go:413-483 | Once completion has ended, a successful commit shows as a complete login with that channel id, unless close cancelled it by force |
| `OAuthTheorems.EmptyErrorTextCompletes` | internal/app/admin_codex_auth.go:413-483 | A concrete run in which a login becomes complete although its exchange failed, because the error text was empty |
| `OAuthOutcomes.EndingIsShownForTenMinutes` | internal/app/admin_codex_auth.go:463-505 | A login that ends at time t is still listed after a pruning at a later time if and only if at most ten minutes, in nanoseconds, have passed since t |
| `OAuthOutcomes.CancellationIsShownForTenMinutes` | internal/app/admin_codex_auth.go:335-505 | The same for a login that is cancelled, by force or not |
| `OAuthOutcomes.CancelOutcomes` | internal/app/admin_codex_auth.go:335-360 | What a cancel answers, and the fields it changes: not found for a token without a login or one that ended more than ten minutes ago; nothing for a cancelled login; a refusal without force for a login past pending; and otherwise a cancelled login without error text and with this finish time |
| `OAuthOutcomes.StartProceeds` | internal/app/admin_codex_auth.go:199-213 | How start and close pass from region to region: start reaches its last region exactly from an idle manager, after a login found cancelled, or after one it cancelled whose listener was shut down |
| `OAuthOutcomes.CallbackIsAnswered` | internal/app/admin_codex_auth.go:413-482 | A taken callback leads to the exchange of its code, or the login fails with the first reason: the error it carries, another state, an exchange that was not prepared |
| `OAuthOutcomes.EndIsReported` | internal/app/admin_codex_auth.go:413-482 | A login that times out, or whose exchange or commit ends, shows that failure text or the committed channel, and its finish time |
| `OAuthOutcomes.AcceptedCallbackIsKept` | internal/app/admin_codex_auth.go:294-311 | An accepted callback is the one that waits for the goroutine; a callback that is not accepted changes nothing |
| `OAuthOutcomes.CancelledLoginIsReleased` | internal/app/admin_codex_auth.go:413-424 | A cancelled login that waits for its callback ends, and stays cancelled |
| `OAuthOutcomes.EveryLoginCanEnd` | internal/app/admin_codex_auth.go:413-483 | From every state at most four actions of its own end a login, so none is stuck |
| `OAuthManager.Manager.PruneLocked` | internal/app/admin_codex_auth.go:498-505 | Deletes from the map in place exactly what the pruning step of the protocol drops |
| `OAuthManager.Manager.CancelSession` | internal/app/admin_codex_auth.go:335-375 | Performs the cancel step on the object: prune, look up the trimmed state, refuse, repeat or stop, with the outcome of that step |
| `OAuthManager.Manager.DeliverCallback` | internal/app/admin_codex_auth.go:294-311 | Performs the delivery step and reports acceptance exactly when the protocol accepts |
| `OAuthManager.Manager.FindForCallback` | internal/app/admin_codex_auth.go:313-329 | Prunes and returns the listed session of a state token, or none |
| `OAuthManager.Manager.StatusOf` | internal/app/admin_codex_auth.go:485-496 | Prunes and reports status, error and channel of the login with the trimmed state, if it is listed |
| `OAuthManager.Manager.ReadActiveForStart` | internal/app/admin_codex_auth.go:199-208 | The first region of start: takes startMu and reads the active login |
| `OAuthManager.Manager.ReplaceForStart` | internal/app/admin_codex_auth.go:209-213 | start cancels the login it found without force, and goes on only when that succeeded or it was already cancelled |
| `OAuthManager.Manager.InsertForStart` | internal/app/admin_codex_auth.go:215-263 | The last region of start: refuses, or creates a fresh session that becomes listed and active |
| `OAuthManager.Manager.CancelForClose` | internal/app/admin_codex_auth.go:507-516 | close cancels the login it found, by force |
| `OAuthManager.Manager.Receive` | internal/app/admin_codex_auth.go:418-436 | complete takes the callback out of the channel and either rejects it with the first applicable error or starts the exchange |
| `OAuthManager.Manager.BeginCommitting` | internal/app/admin_codex_auth.go:438-446 | The first locked part of complete: a cancelled login stops here, any other becomes committing |
| `OAuthManager.Manager.CommitReturned` | internal/app/admin_codex_auth.go:447-452 | The result of commit becomes the local result of complete |
| `OAuthManager.Manager.FinishCompletion` | internal/app/admin_codex_auth.go:463-482 | The last locked part of complete sets the finish time, shows the failure text or the channel unless the login was cancelled, frees the active slot, and invalidates the cached list of exactly the channel it shows |
| `OAuthManager.Login.Offer` | internal/app/admin_codex_auth.go:294-311 | The send that does not wait: accepted exactly when the one-place channel is free, otherwise the acceptance flag is restored |
| `RequestCache.ReadYourWrites` | console/src/api.ts:207-244 | Whatever a caller receives from the cache, from a peek or from a request it joined reflects every write that was acknowledged before it called, in every interleaving of calls, responses, callbacks and invalidations |
| `RequestCache.OnlyCurrentIsServed` | console/src/api.ts:211-244 | Every cached entry and every request in flight was created in the current generation |
| `RequestCache.OneRequestPerKey` | console/src/api.ts:218-243 | At most one unfinished request of the current generation exists for a key |
| `RequestCache.LateCallbacksAreHarmless` | console/src/api.ts:234-240 | The callbacks of an invalidated request change neither the cache nor the in-flight table, so they never evict a replacement |
| `RequestCache.FinaliserFreesItsSlot` | console/src/api.ts:236-240 | The finaliser of a current request removes its own slot and nothing else |
| `RequestCache.NothingOlderThanTheInvalidation` | console/src/api.ts:207-249 | Whoever calls after an invalidation, however the run goes on, is given only what reflects every write committed by then |
| `RequestCache.AgeAndForceDecide` | console/src/api.ts:211-244 | A call is answered from the cache if and only if it is not forced and the entry is younger than the limit; otherwise it joins the request of its key or starts one |
| `RequestCache.AnswerIsCached` | console/src/api.ts:221-235 | A good answer is cached for its key with its time of arrival if nothing was invalidated since the request was made, and in no other case |
| `ConsoleCaches.ChannelsCache.PeekChannels` | console/src/api.ts:207-209 | Returns the cached value whatever its age |
| `ConsoleCaches.ChannelsCache.GetChannels` | console/src/api.ts:211-244 | The cached value if and only if the call is not forced and the value is younger than 30 seconds; otherwise the request in flight or a new one; and this is the call step |
| `ConsoleCaches.ChannelsCache.OnResponse` | console/src/api.ts:221-235 | Stores the value only when the request belongs to the current generation |
| `ConsoleCaches.ChannelsCache.OnSettled` | console/src/api.ts:236-240 | Clears the slot only when it still holds this request |
| `ConsoleCaches.ChannelsCache.InvalidateChannels` | console/src/api.ts:106-110 | New generation, empty cache, empty in-flight table |
| `ConsoleCaches.SiteInventoryCache.PeekSiteInventory` | console/src/api.ts:87-89 | Returns the cached value whatever its age |
| `ConsoleCaches.SiteInventoryCache.GetSiteInventory` | console/src/api.ts:432-449 | The same with a single slot and 45 seconds |
| `ConsoleCaches.SiteInventoryCache.OnResponse` | console/src/api.ts:439-442 | Stores the value only in the current generation |
| `ConsoleCaches.SiteInventoryCache.OnSettled` | console/src/api.ts:443-445 | Clears the slot only when it still holds this request |
| `ConsoleCaches.SiteInventoryCache.InvalidateSiteInventory` | console/src/api.ts:95-99 | New generation, no value, no request |
| `RouteSelection.CountKeys` | internal/app/admin_route_diagnostics.go:339-403 | Counts usable, eligible and ready keys of a channel, each exactly, and active <= eligible <= enabled |
| `RouteSelection.NewDiagnostic` | internal/app/admin_route_diagnostics.go:339-403 | Every field of a row in terms of the snapshot: match kind, ends of cooldowns that are not over, limits that are reached, and the numbers of keys switched on, admitted and not cooling down; a credential channel counts as one ready key |
| `RouteSelection.ExactMatch` | internal/app/admin_route_diagnostics.go:405-415 | True exactly when an enabled entry has the requested alias |
| `RouteSelection.SelectPool` | internal/app/admin_route_diagnostics.go:194-229 | The cascade exact, fuzzy, cooldown fallback, none, followed by the token filter, computes the pool, its mode and whether an exact pool existed |
| `RouteSelection.SelectionMeansReady` | internal/app/admin_route_diagnostics.go:194-229 | Outside the fallback a channel is in the pool if and only if it is ready for the request; in the fallback nobody is ready and the pool is the picked channel, if the token allows it |
| `RouteSelection.SelectionReads` | internal/app/admin_route_diagnostics.go:194-229 | Mode and pool in the fields of the rows: exact matches that can serve, else fuzzy ones, else what was picked from all that match, without the channels that the token rejects |
| `RouteSelection.Reasons` | internal/app/admin_route_diagnostics.go:536-587 | The reasons are exactly the applicable ones, in the fixed order, each with the right blocking flag |
| `RouteSelection.ReasonsRead` | internal/app/admin_route_diagnostics.go:536-587 | Each of the sixteen reasons is given exactly for its fields, twelve blocking and four as notes |
| `RouteSelection.BarredMeansNotReady` | internal/app/admin_route_diagnostics.go:536-587 | A row has a blocking reason other than the two limits if and only if it is not ready for the request |
| `RouteSelection.ExplanationAgreesWithSelection` | internal/app/admin_route_diagnostics.go:194-237 | Every channel outside the pool has such a blocking reason; in the exact and fuzzy modes, and with no pool, exactly those channels have one |
| `RouteSelection.Summary` | internal/app/admin_route_diagnostics.go:589-617 | The verdict the summary lines stand for, including its first reason |
| `RouteSelection.SummaryNamesTheFirstReason` | internal/app/admin_route_diagnostics.go:589-617 | The summary in the fields of the row: the first limit reached, the place behind others or in the top group, or the first of the twelve obstacles |
| `RouteSelection.SummaryAlwaysExplains` | internal/app/admin_route_diagnostics.go:589-617 | The line without a reason is unreachable, "not a candidate" is shown exactly outside the pool, and "skipped" exactly for candidates at one of the two limits; RouteReport.Build establishes the mark this rests on |
| `RouteReport.Diagnose` | internal/app/admin_route_diagnostics.go:136-281 | From the stored channels to the report: one row for each channel as newRouteDiagnosticState describes it, rejected exactly when the token does not allow the channel, which is all the report asks of its rows, and the report about them; not found exactly when no stored channel has the id |
| `RouteReport.BuildRows` | internal/app/admin_route_diagnostics.go:174-189 | The first loop makes one row for each stored channel, in order, with its keys and the verdict of the token restriction |
| `RouteReport.Build` | internal/app/admin_route_diagnostics.go:191-281 | The report from the rows on: the target is found or not; the candidates are the selected pool, scored, sorted, marked and ranked; every line shows its row, marked as candidate exactly inside the pool, with exactly the applicable reasons; and the verdict is never without one |
| `RouteReport.LineAgrees` | internal/app/admin_route_diagnostics.go:194-238 | In the built report exactly the pool is marked, every other line has a blocking reason, and outside the fallback only those have one |
| `RouteReport.Candidates` | internal/app/admin_route_diagnostics.go:231-234 | Scoring, sorting and marking the pool gives the candidates, with the buckets standing together |
| `RouteReport.CandidatesAreRanked` | internal/app/admin_route_diagnostics.go:231-262 | Read off the candidates themselves: positions are the dense rank of the buckets, the counts of each row say which rows share its bucket and add up, and shares are positive, sum to one in each bucket and are in proportion to the active keys |
| `RouteReport.CandidatesAreDetermined` | internal/app/admin_route_diagnostics.go:194-234 | The rows and the setting determine the candidates: no channel appears twice, and there is no second way to sort and mark them |
| `RouteReport.ShowRow` | internal/app/admin_route_diagnostics.go:236-262 | A row shows its candidate if it is in the pool and otherwise no mark at all |
| `RouteRanking.BucketsKeepTheOrder` | internal/app/selector_balancer.go:17-26 | Truncated buckets preserve the order of effective priorities on both sides of zero |
| `RouteRanking.WholePrioritiesAreExact` | internal/app/selector_balancer.go:17-26 | A whole priority k falls in bucket 10 k exactly |
| `RouteRanking.BucketHoldsATenth` | internal/app/selector_balancer.go:17-26 | A bucket holds the priorities of one tenth of a point, shifted by 1e-9, and mirrors below zero |
| `RouteRanking.SortPool` | internal/app/admin_route_diagnostics.go:467-480 | The sorted pool is a permutation, from the highest effective bucket or priority to the lowest and by rising channel id inside one, and its buckets stand together |
| `RouteRanking.PoolOrderIsUnique` | internal/app/admin_route_diagnostics.go:467-480 | The order depends only on which channels are in the pool, not on the order they came in |
| `RouteRanking.Mark` | internal/app/admin_route_diagnostics.go:482-513 | In place, every row gets its position, its higher and same counts and its share, all as functions of the buckets and key counts |
| `RouteRanking.BucketsIgnoreMarks` | internal/app/admin_route_diagnostics.go:515-534 | Marking a row does not move it to another bucket |
| `RouteRanking.CountsPartitionThePool` | internal/app/admin_route_diagnostics.go:482-534 | Higher, same and lower counts add up to the pool, and rows higher .. higher + same are exactly those of the bucket |
| `RouteRanking.PositionIsDenseRank` | internal/app/admin_route_diagnostics.go:482-513 | Positions start at one, are equal exactly inside a bucket, and go up by one at each new bucket |
| `RouteRanking.SharesSumToOne` | internal/app/admin_route_diagnostics.go:482-513 | Every candidate has a positive share and the shares of a bucket sum to exactly one |
| `RouteRanking.SharesFollowKeys` | internal/app/admin_route_diagnostics.go:482-513 | Rows of one bucket share the traffic in proportion to their active keys, at least one each |
| `RouteRanking.GroupIsAnInterval` | internal/app/admin_route_diagnostics.go:522-534 | In a grouped pool the rows in front of a bucket are exactly those of higher buckets, those behind it of lower ones |
| `ModelEntries.NormalizeSettles` | internal/app/admin_models.go:784-797 | One pass over an alias settles it, exactly the settled aliases are left alone, and a non-empty name stays non-empty |
| `ModelEntries.AliasEnds` | internal/app/admin_models.go:784-797 | The alias of a trimmed name has white space at an end if and only if a prefix was cut off in front of white space |
| `ModelEntries.ValidExactly` | internal/model/config.go:295-309 | An entry is valid exactly when its trimmed alias is not empty and neither trimmed name holds NUL, CR or LF; it keeps its trimmed names and its switch |
| `ModelEntries.AliasReads` | internal/app/admin_models.go:784-797 | The alias is what stands behind the last slash, if prefixes are cut and something stands there, else the whole name, lower-cased if asked for |
| `ModelNormalisation.NormalizeForSave` | internal/app/admin_models.go:735-782 | The loop over the map of seen aliases and the candidate list computes the preferred entry of every collision group, in order of first appearance, and the aliases differ by more than case |
| `ModelNormalisation.PreferIsStrict` | internal/app/admin_models.go:799-807 | A strict total order on candidates: exact ones first, then those without a cut prefix, then by upstream in byte order |
| `ModelNormalisation.SurvivorsAreBest` | internal/app/admin_models.go:735-807 | No valid input of a collision group is preferred to the survivor of that group |
| `ModelNormalisation.SurvivorsAreInputs` | internal/app/admin_models.go:735-782 | Every survivor is one of the cleaned inputs |
| `ModelNormalisation.SurvivorIsPreferred` | internal/app/admin_models.go:764-807 | What survives of a group is exact if any member is, among equally exact ones without a cut prefix if any is, and otherwise has the smallest upstream |
| `ModelNormalisation.PreparedReads` | internal/app/admin_models.go:747-768 | A valid entry keeps its upstream model and its switch under the normalised alias, without a redirect exactly when the alias is that model |
| `ModelNormalisation.GroupsKeepTheirOrder` | internal/app/admin_models.go:735-782 | The groups are saved in the order in which their first members come |
| `ModelNormalisation.UpstreamsIgnoreOrder` | internal/app/admin_models.go:735-807 | Two lists with the same entries, in any order and with any repetitions, give the same table from lower-cased alias to upstream |
| `ModelNormalisation.OrderFreeExactly` | internal/app/admin_models.go:735-807 | Every order of a list gives the same saved entries, alias spelling and switch included, if and only if no two entries that win the same collision group, none being preferred to them there, differ in alias spelling or switch |
| `ModelNormalisation.SwitchDependsOnOrder` | internal/app/admin_models.go:735-807 | A valid entry listed both on and off is saved differently in the two orders |
| `ModelNormalisation.CleanIsFixed` | internal/app/admin_models.go:735-782 | An entry survives cleaning unchanged if and only if it is valid, trimmed, settled and does not redirect to itself |
| `ModelNormalisation.FixedListsAreClean` | internal/app/admin_models.go:735-782 | Normalisation leaves a list alone if and only if its entries are clean and their aliases differ by more than case |
| `ModelNormalisation.AliasesDiffer` | internal/app/admin_models.go:735-782 | The aliases of a normalised list differ by more than case |
| `ModelNormalisation.SecondPass` | internal/app/admin_models.go:735-797 | A second normalisation changes nothing if and only if prefixes are kept or no valid name of the given list has white space right after its last slash |
| `ModelNormalisation.SecondPassWithoutSpaces` | internal/app/admin_models.go:735-797 | For names without white space a second normalisation changes nothing |
| `ModelNormalisation.SpacedNameIsChanged` | internal/app/admin_models.go:784-797 | With prefix stripping, every list that contains the name a/ b is changed again by a second pass |
| `ModelRefresh.Channel.Merge` | internal/app/admin_models.go:842-868 | The list becomes the merge of the old list and the fetched one, with the exact growth and change flag |
| `ModelRefresh.MergeKeeps` | internal/app/admin_models.go:842-868 | The old list stays as a prefix and everything behind it was fetched |
| `ModelRefresh.MergeCovers` | internal/app/admin_models.go:842-868 | A fetched entry is skipped only because its alias or upstream was occupied when the loop reached it |
| `ModelRefresh.MergeAddsExactly` | internal/app/admin_models.go:842-868 | A fetched entry goes to the end unless its alias or upstream equals, in any case, an alias or upstream that is already there |
| `ModelRefresh.AddedEntriesAreNew` | internal/app/admin_models.go:842-868 | No added entry collides, in any case, with a name in front of it |
| `ModelRefresh.MergeTwice` | internal/app/admin_models.go:842-868 | Merging the same list again adds nothing |
| `ModelRefresh.MergeKeepsAliasesDistinct` | internal/app/admin_models.go:842-868 | Aliases that differ by more than case still do after a merge |
| `ModelRefresh.Channel.Replace` | internal/app/admin_models.go:870-910 | The list becomes the fetched one with the switches carried over, with the exact number of removed aliases and change flag |
| `ModelRefresh.DisabledStaysDisabled` | internal/app/admin_models.go:870-910 | A switched-off model stays off under its alias, its normalised alias or its upstream name |
| `ModelRefresh.DisabledExactly` | internal/app/admin_models.go:870-910 | After a replacement an entry is off if and only if it was fetched so or shares a name, or the normalised alias, with an old entry that was off; nothing else of it changes |
| `ModelRefresh.ReplaceTwice` | internal/app/admin_models.go:870-910 | Replacing again with the same list changes nothing if and only if, among the fetched entries, none that the old list or its own switch turns off is known under a name of one that stays on |
| `ModelRefresh.DisablingSpreads` | internal/app/admin_models.go:870-910 | A family of lists in which the switch travels one redirect further with each replacement |
| `ModelRefresh.Channel.Reconcile` | internal/app/admin_models.go:822-840 | The scheduled check is reconciled in place, with the exact change flag |
| `ModelRefresh.CheckIsListed` | internal/app/admin_models.go:822-840 | Afterwards the check is empty or a listed alias, a matching entry if there is one, and empty only if there is none |
| `ModelRefresh.ReconciledReads` | internal/app/admin_models.go:822-840 | The check becomes the alias of the first entry with that alias, with its normalised form as alias, or with a redirect to it, in any case; and empty without one |
| `ModelRefresh.ReconcileTwice` | internal/app/admin_models.go:822-840 | In a refreshed list a second reconciliation keeps the choice if and only if there was nothing to choose or no entry in front of the first match redirects to its alias |
| `ModelRefresh.CheckMovesOn` | internal/app/admin_models.go:822-840 | A family of lists in which two reconciliations move the check on twice |
| `ModelRefresh.RefreshedList` | internal/app/admin_models.go:200-228 | After a replacement, or a merge into a normalised or refreshed list, the aliases are settled and differ by more than case |
| `ModelRefresh.Channel.Refresh` | internal/app/admin_models.go:191-236 | One channel of a batch refresh: an empty fetch changes nothing, otherwise merge or replace and reconcile, a save is asked for exactly when one of the stages changed something, and the resulting aliases are settled and distinct |
| `ModelDiscovery.Discover` | internal/app/admin_models.go:477-592 | The search reports the first success in URL, protocol, key order, or the last failure; refuses exactly for missing URLs, missing keys or an unknown protocol, in this order; records the latency of exactly the answering URL; cools exactly the URLs in front of the answer with a channel-level or network failure; and makes at most runs times keys attempts |
| `ModelDiscovery.Search` | internal/app/admin_models.go:496-592 | The three nested levels after the arguments were checked, proved against the same report |
| `ModelDiscovery.TryProtocols` | internal/app/admin_models.go:543-579 | One URL: the answer, or the last failure and whether the URL has to be cooled |
| `ModelDiscovery.TryKeys` | internal/app/admin_models.go:552-573 | One protocol on one URL: keys are tried until a result that is not a key-level failure |
| `ModelDiscovery.AnswerIsUnique` | internal/app/admin_models.go:477-592 | The specification determines the answer |
| `ModelDiscovery.NoAnswerWhenAllFail` | internal/app/admin_models.go:477-592 | When every run fails there is no answer to report |
| `ModelDiscovery.RunEnds` | internal/app/admin_models.go:552-573 | Only a failure at key level goes on to the next key |
| `ModelDiscovery.CoolsReads` | internal/app/admin_models.go:569-579 | A URL is cooled exactly when one of its runs ends in a failure at channel level or in a network failure |
| `ModelDiscovery.PlanReads` | internal/app/admin_models.go:496-546 | The protocols tried on a URL: the one asked for if the URL declares it or none; else the declared ones that are not blank; else openai, anthropic, codex, gemini |
| `ModelDiscovery.NormalizeKeys` | internal/app/admin_models.go:293-308 | Trimmed, non-blank keys without repetition in order of first appearance |
| `ModelDiscovery.KeysAreKept` | internal/app/admin_models.go:293-308 | Every non-blank key is tried |
| `ModelDiscovery.KeysAreGiven` | internal/app/admin_models.go:293-308 | Every key that is tried was given |
| `ModelDiscovery.KeysKeepTheirOrder` | internal/app/admin_models.go:293-308 | No key is tried twice, and keys are tried in the order in which they are given first |
| `ModelDiscovery.AvailableKeys` | internal/app/admin_models.go:266-291 | The keys that are not cooling down, or without any the single key that recovers first, or nothing exactly when no key is offered |
| `ModelDiscovery.TriedKeysAreReady` | internal/app/admin_models.go:266-291 | The keys tried are exactly the trimmed ones that are switched on, not blank and not cooling down |
| `ModelDiscovery.FallbackReads` | internal/app/admin_models.go:266-291 | The key tried when all are cooling down has the earliest end of its cooldown, and the lowest index among equal ends |
| `ImportBudget.Budget.Reserve` | internal/app/admin_oauth_import_files.go:114-126 | One charge in unsigned arithmetic equals the charge in plain numbers, so no subtraction wraps; exhausting the bytes uses up the budget |
| `ImportBudget.Budget.ReadZipEntry` | internal/app/admin_oauth_import_files.go:166-192 | Accepts exactly entries that fit, also when they yield more than they declare, pays for the excess, and uses up the budget when they do not fit |
| `ImportBudget.Budget.ExpandZip` | internal/app/admin_oauth_import_files.go:128-164 | Either all JSON entries, complete and paid for, or a refusal, decided and charged exactly as the entry-by-entry account says |
| `ImportBudget.Budget.ReadTar` | internal/app/admin_oauth_import_files.go:210-254 | The same for a tar stream whose reader never yields more than declared |
| `ImportBudget.Budget.ExpandUpload` | internal/app/admin_oauth_import_files.go:57-98 | One upload contributes all its files or a single failure, and its charge and refusal are exactly those of the account |
| `ImportBudget.ExpandUploads` | internal/app/admin_oauth_import_files.go:57-100 | Over any sequence of uploads the bytes taken in stay within 32 MiB and the files taken in, readable as credentials or not, within 1000; the result is the sorted arrangement of exactly the contributions, with exactly the uploads refused that the account refuses |
| `ImportBudget.ReadUpload` | internal/app/admin_oauth_import_files.go:38-55 | Accepts exactly uploads whose declared and real sizes are in range and that open, read and close without error |
| `ImportBudget.RefusalIsFinal` | internal/app/admin_oauth_import_files.go:128-164 | The first refused entry ends the charging of an archive |
| `ImportBudget.BeforeIsStrict` | internal/app/admin_oauth_import_files.go:282-298 | The comparison is a strict weak order, tied exactly for equal priority, sort name and file name |
| `ImportBudget.SortKeepsTotals` | internal/app/admin_oauth_import_files.go:282-298 | Sorting changes neither the bytes nor the number of files taken in |
| `ImportRules.ImportOrder` | internal/app/admin_oauth_import_files.go:282-298 | Files are imported by rising priority, then by name without regard to case, then by name, then by the name shown |
| `ImportRules.ZipEntryGranted` | internal/app/admin_oauth_import_files.go:128-192 | A ZIP entry is taken in, in plain numbers: within 1000 entries and 32 MiB, a directory or a regular file at a safe path, a JSON file within 1 MiB as declared and as read; and what it is charged |
| `ImportRules.TarEntryGranted` | internal/app/admin_oauth_import_files.go:210-254 | The same for a tar entry |
| `ImportRules.GrantedThroughout` | internal/app/admin_oauth_import_files.go:128-164 | An archive is granted if and only if each entry is, charged after the ones in front of it |
| `ImportRules.UploadGranted` | internal/app/admin_oauth_import_files.go:38-100 | An upload is taken in exactly when it can be read, 1 MiB for a file and 8 MiB for an archive, and its file or all entries of its archive are granted, with at least one credential file |
| `ImportRules.ContributionReads` | internal/app/admin_oauth_import_files.go:57-100 | A refused or missing upload becomes one failure without contents; any other its file or the files of its archive |
| `ImportRules.ZipFilesRead` | internal/app/admin_oauth_import_files.go:128-164 | Every JSON file of a ZIP archive becomes one file, in order, with its name, its contents and the priority they ask for |
| `ImportRules.ZipFilesComeFromEntries` | internal/app/admin_oauth_import_files.go:128-164 | ... and nothing else does |
| `ImportRules.TarFilesRead` | internal/app/admin_oauth_import_files.go:210-254 | The same for a tar archive |
| `ImportRules.TarFilesComeFromEntries` | internal/app/admin_oauth_import_files.go:210-254 | ... and nothing else does |
| `ImportRules.ArchiveBySuffix` | internal/app/admin_oauth_import_files.go:102-112 | ZIP and compressed tar archives are known by the end of the trimmed name in any case |
| `ImportRules.JsonBySuffix` | internal/app/admin_oauth_import_files.go:128-164 | A credential file ends in .json in any case |
| `ImportRules.SafePathReads` | internal/app/admin_oauth_import_files.go:256-265 | A safe path has no backslash and no empty, . or .. element, so it is relative and stays inside the archive |
| `ImportRules.ElementsRead` | internal/app/admin_oauth_import_files.go:256-265 | The elements of a path are what stands between its slashes |
| `ImportRun.SeedPriorities` | internal/app/admin_oauth_import.go:247-272 | Each provider starts at the highest existing priority of its channels, at least zero, plus the increment; at zero without an increment |
| `ImportRun.PrioritiesFollowTheFiles` | internal/app/admin_oauth_import.go:339-382 | With a positive increment the created channels of a provider rise with the file order, consecutive ones by exactly one increment, all above every existing channel |
| `ImportRun.StoredPrioritiesRise` | internal/app/admin_oauth_import.go:339-382 | The same for the channels as stored |
| `ImportRun.NoIncrementNoPriority` | internal/app/admin_oauth_import.go:339-382 | Without an increment every created channel gets priority zero |
| `ImportRun.StatusesPartition` | internal/app/admin_oauth_import.go:384-394 | Created, skipped and failed partition the processed files, and the providers partition the created ones |
| `ImportRun.StatusReads` | internal/app/admin_oauth_import.go:339-382 | Created, skipped or failed, in terms of what detecting, validating and creating came to; a prescribed provider overrides the detected one |
| `ImportRun.EventsBalance` | internal/app/admin_oauth_import.go:289-337 | At every event of a full run created + skipped + failed equals the number of processed files |
| `ImportRun.EventReads` | internal/app/admin_oauth_import.go:289-337 | The j-th event names file j / 2, is told before or after it, and repeats how many of the files processed so far were created, skipped and failed |
| `ImportRun.Import.RunFile` | internal/app/admin_oauth_import.go:339-382 | One file: its status, the channel it creates with its priority, and the next priority of its provider |
| `ImportRun.Import.Append` | internal/app/admin_oauth_import.go:384-394 | Appends the result and increments exactly the counter of its status |
| `ImportRun.Import.Run` | internal/app/admin_oauth_import.go:289-337 | The events told are a prefix of the full sequence, the run stops early only for a cancelled request or an observer that gives up, and what was done by then is complete |
| `HealthTimeline.ChannelHealth` | internal/app/admin_stats.go:588-633 | The nested loops write, for exactly the channels that occur, the merge of their parts bucket by bucket, in the order the map was walked |
| `HealthTimeline.MergeLine` | internal/app/admin_stats.go:603-631 | One timeline is merged in place into the channel array |
| `HealthTimeline.FoldConserves` | internal/app/admin_stats.go:603-631 | Every count, token and cost sum, and every average times success count, of a merged bucket is the sum over its parts; the rate is the rate of the sums; it has data exactly when a part has |
| `HealthTimeline.AmountsRead` | internal/app/admin_stats.go:603-631 | What a point adds to each of the sums that are conserved |
| `HealthTimeline.BucketConserves` | internal/app/admin_stats.go:588-633 | The same for a bucket of a channel over all timelines |
| `HealthTimeline.FoldsAgree` | internal/app/admin_stats.go:603-631 | Two orders of the same parts differ at most in the two averages, and not at all when the bucket has a success |
| `HealthTimeline.OrderFreeExactly` | internal/app/admin_stats.go:603-631 | The merged bucket is the same for every order if and only if it has a success or all its parts with data show the same averages |
| `HealthTimeline.OrderShows` | internal/app/admin_stats.go:603-631 | Two parts without a success and with different averages give different buckets in the two orders |
| `HealthTimeline.BucketIgnoresOrder` | internal/app/admin_stats.go:588-633 | A bucket with a success does not depend on the order in which the map is walked |
| `Dashboard.Accumulate` | internal/app/admin_dashboard.go:175-219 | Totals are the sums over all entries, and each model and site group is the sum over its entries |
| `Dashboard.GroupsRead` | internal/app/admin_dashboard.go:175-231 | Which model and site an entry is listed under, and the headings for entries without a name or a site |
| `Dashboard.RowsAddUp` | internal/app/admin_dashboard.go:175-226 | The rows of a table add up to the totals, quantity by quantity |
| `Dashboard.OneTableExactly` | internal/app/admin_dashboard.go:285-324 | The sorted table is independent of map order and sort if and only if no two groups are tied on cost, requests and label |
| `Dashboard.SameNamedSites` | internal/app/admin_dashboard.go:285-324 | Two sites with one name, the same cost and the same number of requests leave the table undetermined |
| `Dashboard.ModelTableIsUnique` | internal/app/admin_dashboard.go:221-231 | The model table never depends on the map order |
| `Dashboard.TableOrder` | internal/app/admin_dashboard.go:316-324 | Rows stand by falling cost, then by falling number of requests, then by title in byte order |
| `Dashboard.LinesAreLargest` | internal/app/admin_dashboard.go:285-314 | The lines left after cutting are the groups of largest cost, in order |
| `Dashboard.Compact` | internal/app/admin_dashboard.go:289-314 | At most the limit of lines, the first rows unchanged, one line for the rest, and every sum preserved |
| `Dashboard.SetShares` | internal/app/admin_dashboard.go:263-283 | Every share is set in place by cost, else by requests, else to zero |
| `Dashboard.SharesSumToOne` | internal/app/admin_dashboard.go:263-283 | Shares of a table that adds up sum to exactly one as soon as there is cost or a request, and to zero otherwise |
| `Dashboard.SharesRead` | internal/app/admin_dashboard.go:275-283 | A share is the part of the cost, or of the requests if nothing was spent |
| `Dashboard.Table` | internal/app/admin_dashboard.go:221-234 | Grouped rows in table order, cut to the limit, with shares, adding up to the totals |
| `Dashboard.BuildUsage` | internal/app/admin_dashboard.go:175-234 | The whole snapshot: both tables report the statistics, have at most 12 and 10 lines, add up to the totals and have shares that sum to one |
| `ActiveRequests.EffectIsFaithful` | internal/app/active_requests.go:95-230 | After any call the table still shows what the whole history says about every request |
| `ActiveRequests.CallWithoutReset` | internal/app/active_requests.go:197-230 | Between resets a row accumulates: positive byte counts add up, the first positive first-byte time stays, the status follows |
| `ActiveRequests.CallWithReset` | internal/app/active_requests.go:95-147 | BeginAttempt and Retry clear the counters and set start time and status |
| `ActiveRequests.IdsAreNeverReused` | internal/app/active_requests.go:95-103 | An identifier is never handed out twice, whether or not its request was removed |
| `ActiveRequests.ListIsUnique` | internal/app/active_requests.go:232-270 | The list is determined by the call history: map order does not show |
| `ActiveRequests.SecondsRead` | internal/app/active_requests.go:233-268 | First-byte times are shown in seconds |
| `ActiveRequests.Manager.BeginAttempt` | internal/app/active_requests.go:95-125 | Creates under a new identifier or reuses the given one, resets in place, and is recorded as that call |
| `ActiveRequests.Manager.Retry` | internal/app/active_requests.go:136-147 | Resets a known request in place; nothing else changes |
| `ActiveRequests.Manager.AddBytes` | internal/app/active_requests.go:198-209 | Adds a positive count to a known request and marks it receiving |
| `ActiveRequests.Manager.SetClientFirstByteTime` | internal/app/active_requests.go:212-230 | Stores the first positive number of microseconds and marks the request receiving |
| `ActiveRequests.Manager.SetUpstreamWebsocket` | internal/app/active_requests.go:150-156 | Sets the transport flag of a known request |
| `ActiveRequests.Manager.SetDebugCapture` | internal/app/active_requests.go:160-166 | Sets or clears the capture of a known request |
| `ActiveRequests.Manager.Remove` | internal/app/active_requests.go:185-189 | Forgets a request |
| `ActiveRequests.Manager.List` | internal/app/active_requests.go:233-270 | One row for every request in flight, each as the calls since its last reset determine it, strictly descending by start time and identifier |
| `AntigravityCredential.NormalizeIsIdempotent` | internal/antigravityauth/credential.go:78-114 | The canonical credentials are exactly the well-formed ones, and normalising gives one |
| `AntigravityCredential.NormalizedReads` | internal/antigravityauth/credential.go:78-127 | Normalising in the fields given: the first problem in order, or the trimmed fields with the expiry worked out and a blank tier dropped |
| `AntigravityCredential.ParseInvertsPayload` | internal/antigravityauth/credential.go:56-75 | Parsing the payload of a canonical credential gives it back if and only if the payload is at most 1 MiB and not empty, which writing does not check |
| `CredentialFormat.ExampleIsLawful` | internal/antigravityauth/credential.go:56-172 | The laws assumed of dates, trimming and the codec can be met: a length-prefixed encoding and its inverse |
| `CredentialFormat.LargePayloadIsLost` | internal/antigravityauth/credential.go:56-75 | With that format, the payload of any well-formed credential with a token above 1 MiB is written but cannot be parsed |
| `AntigravityCredential.RefreshKeepsIdentity` | internal/antigravityauth/credential.go:138-160 | A token refresh keeps email, project and tier and takes the new token; it succeeds if and only if the rotated refresh token is absent or not blank |
| `AntigravityCredential.DueExactly` | internal/antigravityauth/credential.go:129-135 | A canonical credential is due for a refresh from the lead time before its expiry on |
| `AntigravityCredential.TypeAndTrimAreLawful` | internal/antigravityauth/credential.go:78-114 | The type constant and the trimming used obey the laws the results rest on |
| `AntigravityCredential.CompleteMetadata` | internal/antigravityauth/service.go:209-236 | One round of metadata requests: known values are not asked for, the first failure or an empty project ends it, and what was written stays written |
| `AntigravityCredential.RefreshCredential` | internal/antigravityauth/service.go:197-207 | A refreshed credential is the canonical merge, or the failure of the request or of the merge |
| `AntigravityCredential.CompleteCredential` | internal/antigravityauth/service.go:157-195 | At most one refresh: exactly one if the expiry is within the lead time, and otherwise only after a rejection; a second one never; the result is canonical and keeps or replaces the token accordingly; it names owner and project if the given email and project are trimmed and the service answers with trimmed names that are not blank |
| `AntigravityCredential.CompletionSucceeds` | internal/antigravityauth/service.go:157-195 | A canonical credential is completed if and only if a metadata round succeeds with its token or, when the token expires within the lead time or is rejected in the first round, with the one it is exchanged for |
| `AntigravityCredential.CompletionFails` | internal/antigravityauth/service.go:157-195 | How a completion fails: at once for a failure that is not about the token, else after the one exchange, as rejected or as failed |
| `CredentialCache.StepKeeps` | internal/app/antigravity_credentials.go:49-156 | Every step of a refresh, a read, an invalidation or a handing-out keeps the agreement with the store |
| `CredentialCache.AlwaysBacked` | internal/app/antigravity_credentials.go:49-156 | Over every run and interleaving, every credential cached or handed out is the canonical form of a payload the store has held for that channel |
| `CredentialCache.StoreComesFirst` | internal/app/antigravity_credentials.go:107-120 | A refreshed credential reaches the cache only after its payload has reached the store |
| `CredentialCache.CredentialObject.Clone` | internal/app/antigravity_credentials.go:158-168 | The clone has the same value and shares no object with the original |
| `CredentialCache.CredentialObject.Normalize` | internal/antigravityauth/credential.go:78-114 | Normalising in place gives the canonical value, or the first problem |
| `CredentialCache.Manager.LookUp` | internal/app/antigravity_credentials.go:128-134 | The look-up under the read lock is a hit step that hands out a clone, or finds nothing |
| `CredentialCache.Manager.Parse` | internal/app/antigravity_credentials.go:135-138 | Parsing the caller's configuration is a parse step |
| `CredentialCache.Manager.Insert` | internal/app/antigravity_credentials.go:139-146 | The region under the write lock: a second look-up prefers an entry that appeared in the meantime, else the cache keeps a copy of the parsed credential |
| `CredentialCache.Manager.Store` | internal/app/antigravity_credentials.go:107-113 | A granted write is a store step of the canonical payload, a refused one changes nothing |
| `CredentialCache.Manager.CacheRefreshed` | internal/app/antigravity_credentials.go:114-120 | Only a refresh that is in the store enters the cache; what is returned shares no object with the cache |
| `CredentialCache.Manager.Invalidate` | internal/app/antigravity_credentials.go:149-156 | Drops exactly the entry of the channel |
| `CredentialCache.Manager.CachedOrParse` | internal/app/antigravity_credentials.go:128-147 | With nobody in between: a copy of the entry or of the parsed payload, which the cache keeps |
| `CredentialCache.Manager.Refresh` | internal/app/antigravity_credentials.go:70-121 | With nobody in between: the renewed credential is stored, cached and returned as a copy; an error stores nothing |
| `CredentialCache.RenewedReads` | internal/app/antigravity_credentials.go:70-105 | A token is exchanged exactly when that is forced or due, and then, or when metadata or a name is wanted, the credential is completed |
| `CredentialCache.Manager.ResolveCredential` | internal/app/antigravity_credentials.go:49-126 | With nobody in between: answers without a refresh exactly when nothing is forced, no metadata is asked for, both names are known and the expiry is more than the lead time away; else with the stored renewal |
| `CredentialCache.Manager.CachedOrParseAmongOthers` | internal/app/antigravity_credentials.go:128-147 | Whatever steps other callers take between the regions, the result is the canonical form of a payload the store has held for the channel, in an object of its own |
| `CredentialCache.Manager.RefreshAmongOthers` | internal/app/antigravity_credentials.go:70-121 | The same for one refresh with other callers between reading, renewing, storing and caching |
| `CredentialCache.Manager.Share` | internal/app/antigravity_credentials.go:70-105 | Callers that waited for a refresh all receive its one object, which keeps its value and shares nothing with the cache whatever other callers do meanwhile |
| `CredentialCache.Manager.ResolveAmongOthers` | internal/app/antigravity_credentials.go:49-126 | The same for resolveCredential with any steps of other callers between all its regions; if the service answers with names, the result names owner and project |
| `WallpaperTiles.EstimateHolds` | console/src/wallpaperToneMath.ts:91-93 | The estimate the limit is checked against is never smaller than the number of tiles |
| `WallpaperTiles.StartBounds` | console/src/wallpaperToneMath.ts:95-96 | The first tile begins before the edge, by less than two tiles |
| `WallpaperTiles.CentredTile` | console/src/wallpaperToneMath.ts:94-96 | One tile index of an axis is exactly centred |
| `WallpaperTiles.OneTile` | console/src/wallpaperToneMath.ts:97-102 | Every coordinate of the axis lies in exactly one tile |
| `WallpaperTiles.TileRects` | console/src/wallpaperToneMath.ts:97-103 | Both loops terminate for every positive size and emit the grid row by row |
| `WallpaperTiles.GridCoversOnce` | console/src/wallpaperToneMath.ts:97-103 | Every viewport point is covered exactly once |
| `WallpaperTiles.GridIsCentred` | console/src/wallpaperToneMath.ts:94-103 | One tile is exactly centred in the viewport |
| `WallpaperTiles.Scaled` | console/src/wallpaperToneMath.ts:106-117 | cover contains the viewport and contain fits inside it, both centred, touching on an axis and with the aspect ratio kept |
| `WallpaperTiles.DrawRects` | console/src/wallpaperToneMath.ts:79-118 | All branches: nothing for an empty size or a grid above the limit, else at most 4000 rectangles with the properties above |
| `ChannelNames.CandidatesDiffer` | internal/app/admin_codex_auth.go:661-678 | Different suffixes give names that differ by more than case |
| `ChannelNames.Pigeonhole` | internal/app/admin_codex_auth.go:661-678 | With n candidates taken there are at least n names in use |
| `ChannelNames.UniqueName` | internal/app/admin_codex_auth.go:661-678 | The search ends with a suffix of at most the number of used names plus one, the first free candidate, different from every existing trimmed name by more than case |
| `ChannelNames.TakenByAName` | internal/app/admin_codex_auth.go:661-678 | A candidate is passed over only because an existing name differs from it by no more than outer white space and case |

## Left out

- HTTP handlers, request binding, JSON, CSV, ZIP, tar and gzip decoding, SSE writing, sockets, timers and storage: their results are inputs of the model.
- Case folding covers the ASCII letters, and white space is that of Latin-1 (the ASCII spaces, U+0085 and U+00A0); other Unicode letters and spaces are not modelled.
- Floating-point rounding and overflow of 64-bit counters: reals and unbounded integers are used, except for the unsigned arithmetic of the import budget. The correction of 1e-9 in the priority bucket is kept as a real number.
- ImportBudget.Budget.ReadTar: assumes, as the tar reader guarantees, that an entry never yields more than it declares.
- ImportBudget.Budget.ExpandZip: path cleaning is stated as a property of the path elements instead of a call to the path library.
- The check-in attempts cache of the console (console/src/api.ts:567-582) has no generation, so read-your-writes does not hold for it.
- AntigravityCredential.ParseInvertsPayload: the JSON codec is a parameter of which only decode(encode(c)) == c is assumed; dates are a parameter as well.
- Parsing of a pasted callback URL (internal/app/admin_codex_auth.go:377-411) and the callback web page: only what is delivered is modelled.
- Waiting with an abort signal in the console: an aborted caller only stops waiting.
- calculateEffectivePriority, pickBestChannelWhenAllCooled, the URL order and the classification of HTTP errors are parameters.
- Placement of database rows into the 48 health buckets (internal/app/admin_stats.go:540-586): the model starts from the per-model points.
- meanLuminance, blendToward, sampleBoxInViewport and the tone thresholds of the wallpaper, and siteBalanceHistory: single loops or expressions that would only add easy members.
- reconcileCodexOAuthModelEntries, the fixed model lists and the identity comparisons of the two providers: list filters that would only add easy members.
- ActiveRequests.Manager.BeginAttempt: the descriptive fields of an attempt are one opaque value; SetUpstreamProtocol, which overwrites one of them, and the debug snapshot are not modelled.
- Dashboard.BuildUsage: cache tokens, plain cost, client usage, the time series and the balances of the snapshot are not modelled.
- ModelDiscovery.Discover: the report does not say which protocols the list of attempted protocols holds, only that it is empty exactly when nothing was attempted.
- CredentialCache.Manager.Share: how callers come to wait for a refresh, and the order in which they resume, are not modelled; those who receive the one object share it among themselves, and as in the source they must not change it.
- RouteReport.Diagnose: sticky routing and the actual traffic counts are left out, the health score is a parameter, and the rows that the source shares between the list and the pool by pointer are matched by channel id, which is the primary key.
