# goversion_select and azdeployer: the decision logic, in Dafny

This project models the two pieces of pure decision logic in the repository.

- **The Go version selector** (`goversion_select`). An HTTP handler takes a
  version constraint (empty means `1.x`) and, optionally, a comma-separated
  list of candidate versions. Without candidates it uses a cached list that
  it fetched from a remote source. It answers with the greatest version in
  the list that satisfies the constraint. The cache (`getVersions`) is
  refreshed when it was never filled or is older than its maximum age. A
  fetch that fails before the body is read leaves the cache as it was.
  Once the body is read, the list is replaced with its trimmed, non-blank,
  parsable lines and stamped with the time of reading, even if closing
  the body then fails.
- **The function-app deployer** (`azdeployer`). It chooses an App Service
  plan: the first listed plan that is a Linux consumption (`Y1`) function-app
  server farm in the right location, looked up page by page. It builds the
  plan's server-farm resource ID. It merges four fixed application settings
  into the app's existing settings. It also shows that the plan
  `CreateOrUpdateServicePlan` creates passes the lookup's own filter.

Modules, one per file:

| file | module | models |
|---|---|---|
| `wrappers.dfy` | `Wrappers` | `Option`, `Result` |
| `strings.dfy` | `Strings` | Go's `strings.TrimSpace`, `strings.Split` and `strings.Join` with a one-character separator |
| `versions.dfy` | `Versions` | the version order `GreaterThan` relies on |
| `select.dfy` | `Select` | the max-match scan of `ServeHTTP` |
| `version_cache.dfy` | `VersionCache` | `getVersions` as a state transition |
| `handler.dfy` | `GoVersionSelect` | `ServeHTTP` end to end |
| `service_plans.dfy` | `ServicePlans` | `findLocationPlan`, the `GetLocationPlan` page loop, the `CreateOrUpdateServicePlan` plan |
| `function_apps.dfy` | `FunctionApps` | `UpdateAppSettings`, `serverFarmID`, `CreateFunctionApp` |

The external `goversion` library is not shown. So:

- a `Version` is a sequence of numeric segments;
- `GreaterThan` is the lexicographic order with missing segments read as 0;
- a constraint is a predicate `Version -> bool`;
- the two parsers (`NewConstraints` and `NewVersion`) are function-valued
  parameters.

The clock reading `now` and the outcome of the HTTP fetch are inputs of
`GetVersions`. The listed pages of plans are an input of `GetLocationPlan`.

## Model

| member | source | states |
|---|---|---|
| GoVersionSelect.ConstraintText | goversion_select/goversion_select.go:24-27 | The constraint parsed is never empty: the query value when it is non-empty, otherwise `1.x`. |
| GoVersionSelect.EmptyConstraintIsDefault | goversion_select/goversion_select.go:24-27 | A request with an empty constraint gets exactly the response and cache of the same request with constraint `1.x`. |
| GoVersionSelect.Serve | goversion_select/goversion_select.go:23-66 | An unparsable constraint answers 400 and leaves the cache alone. A parsable constraint never answers that 400. With candidates, the cache is untouched, and a candidate list that fails to parse answers 400 naming its first unparsable piece. Without candidates, the cache becomes what `getVersions` leaves, and the answer is 500 exactly when `getVersions` reported an error. When the constraint parses and either every candidate parses or, without candidates, `getVersions` reported no error, the answer is 404 or a version: 404 exactly when no version used satisfies the constraint, or else the first of the maximal satisfying versions. |
| GoVersionSelect.Answer | goversion_select/goversion_select.go:52-65 | The scan's verdict is 404 exactly when nothing satisfies the constraint; otherwise it is the first maximal satisfying version. |
| GoVersionSelect.ParseCandidates | goversion_select/goversion_select.go:36-44 | On success, the versions correspond one to one and in order to the comma-separated pieces. On failure, the reported piece is the first one that does not parse. |
| GoVersionSelect.ParseCandidatesSucceeds | goversion_select/goversion_select.go:36-44 | The candidates are accepted exactly when every piece parses. |
| GoVersionSelect.CandidatesIgnoreCache | goversion_select/goversion_select.go:33-51 | With candidates, the response does not depend on the cache, the clock or the version source. |
| GoVersionSelect.RepeatWhileFresh | goversion_select/goversion_select.go:71-80 | With a fresh cache, a request leaves the cache unchanged, and repeating it gives the same outcome. |
| GoVersionSelect.UnreachableSourceFails | goversion_select/goversion_select.go:45-50 | Without candidates and with a stale cache, a failed fetch answers 500 and leaves the cache as it was. |
| GoVersionSelect.CloseFailureRefreshesButFails | goversion_select/goversion_select.go:46-49 | When the body was read but closing it failed, the cache holds the body's versions stamped with the read time, and the request answers 500. |
| GoVersionSelect.NumericNotTextual | goversion_select/goversion_select.go:52-60 | Constraint `1.x` over candidates 1.2.0, 1.10.0, 2.0.0 selects 1.10.0: versions compare by number, not as text. |
| GoVersionSelect.SplitThree | goversion_select/goversion_select.go:36 | Three comma-free literals joined by commas split back into exactly those three, in order. |
| GoVersionSelect.SelectsMiddle | goversion_select/goversion_select.go:52-60 | Over 1.2.0, 1.10.0, 2.0.0 with only the first two satisfying, the scan selects 1.10.0. |
| GoVersionSelect.CandidatesAsWritten | goversion_select/goversion_select.go:36-44 | The candidate loop as written keeps one entry per piece, a nil one where the piece does not parse. |
| GoVersionSelect.NilCandidateReachesScan | goversion_select/goversion_select.go:38-43 | For an unparsable piece, the loop as written passes a nil version on to the scan, while the corrected loop reports the failure. |
| Select.ScanFrom | goversion_select/goversion_select.go:53-60 | Continuing from any prefix whose best-so-far is correct, the loop ends with nothing exactly when no version satisfies the constraint, and otherwise with the first index among the maximal satisfying versions. |
| Select.NewMaximum | goversion_select/goversion_select.go:57-58 | A satisfying version strictly greater than the kept one becomes the first maximum of the longer prefix. |
| Select.MaxMatchIndex | goversion_select/goversion_select.go:52-60 | The scan yields no index exactly when nothing satisfies the constraint; otherwise it yields the first index among the maximal satisfying versions. |
| Select.MaxMatch | goversion_select/goversion_select.go:52-64 | The selected version is nil exactly when nothing satisfies the constraint. Otherwise it is an element of the list that satisfies the constraint, that no satisfying element exceeds, and that every earlier satisfying element is smaller than. |
| Select.MaxMatchIsFirstMax | goversion_select/goversion_select.go:52-60 | Any index meeting the first-maximum description is the scan's answer: the description is complete. |
| Select.TieKeepsFirst | goversion_select/goversion_select.go:57-59 | Of two equivalent satisfying versions, the later one is never selected, because replacement needs strict `GreaterThan`. |
| Versions.GreaterThan | goversion_select/goversion_select.go:57 | `a` is greater than `b` exactly when, at the first segment where they differ (zero-padded), `a` has the larger one. |
| Versions.GreaterThanExceeds | goversion_select/goversion_select.go:57 | The segment comparison reports greater exactly when some segment of `a` is larger and all earlier segments agree. |
| Versions.CompareFromGt | goversion_select/goversion_select.go:57 | From segment `i` on, the comparison reports greater exactly when a first difference at or after `i` is larger in `a`. |
| Versions.CompareFromFlip | goversion_select/goversion_select.go:57 | Comparing in the other order flips the outcome. |
| Versions.CompareFromEq | goversion_select/goversion_select.go:57 | The comparison from segment `i` on reports equality exactly when all later segments agree with zero padding. |
| Versions.CompareFromChain | goversion_select/goversion_select.go:57 | Greater-than from a segment on is transitive. |
| Versions.StepWhenEqual | goversion_select/goversion_select.go:57 | Equal segments at `i` defer the comparison to segment `i + 1`. |
| Versions.StepWhenDiffer | goversion_select/goversion_select.go:57 | Differing segments at `i` decide the comparison. |
| Versions.Trichotomy | goversion_select/goversion_select.go:57 | Exactly one of greater, smaller and equivalent holds, and equivalence is equality up to trailing zero segments. |
| Versions.Irreflexive | goversion_select/goversion_select.go:57 | No version is greater than itself. |
| Versions.StrictWeakOrder | goversion_select/goversion_select.go:57 | `GreaterThan` is asymmetric, transitive and negatively transitive: a strict weak order. |
| VersionCache.Stale | goversion_select/goversion_select.go:71-77 | The cache is fresh exactly when it has been filled and the clock is within the maximum age of its stamp. |
| VersionCache.LineVersion | goversion_select/goversion_select.go:91-99 | An all-space line yields nothing; a non-empty line without surrounding white space is parsed as it stands. |
| VersionCache.LineVersionOfPadded | goversion_select/goversion_select.go:91-99 | A line of non-blank text with white space on either side contributes that text, parsed without the white space. |
| VersionCache.GetVersions | goversion_select/goversion_select.go:68-109 | A fetch happens exactly when the cache is stale. A fresh cache is returned unchanged with no error. Failures other than closing the body keep list and timestamp. A successful read replaces the list with the parsed lines, stamps it with the time the body was read, and reports an error only when closing the body failed. The maximum age never changes. |
| VersionCache.ParseLines | goversion_select/goversion_select.go:88-101 | The kept versions are never more than the body's lines. |
| VersionCache.ParseLinesMembers | goversion_select/goversion_select.go:90-100 | A version is kept exactly when some line, trimmed and non-blank, parses to it. |
| VersionCache.ParseLinesAppend | goversion_select/goversion_select.go:90-100 | Parsing a body is parsing its parts one after the other, so kept versions stay in line order. |
| VersionCache.ParseLine | goversion_select/goversion_select.go:91-100 | One line contributes exactly its own version, if it has one. |
| VersionCache.StaleStaysStale | goversion_select/goversion_select.go:71-80 | A cache stale at one time is stale at every later time, so the later call fetches. |
| VersionCache.FreshAfterRefresh | goversion_select/goversion_select.go:71-108 | After a successful refresh, any call within the maximum age of the time the body was read returns the same list, without error and without fetching, whatever the source would answer. |
| VersionCache.FailureKeepsCache | goversion_select/goversion_select.go:81-105 | A transport error, a non-200 status or a scanner error leaves list and timestamp unchanged and reports an error. |
| VersionCache.KeepFirstAndLast | goversion_select/goversion_select.go:90-101 | Four lines of which only the first and last yield versions leave exactly those two, in order. |
| VersionCache.TolerantRefresh | goversion_select/goversion_select.go:90-101 | The body "1.1.0", "", "garbage", "1.2.0" leaves exactly the versions of the first and last line. |
| Strings.SkipLeadingAt | goversion_select/goversion_select.go:91 | `j` is the skip index from `i` exactly when everything from `i` to `j` is space and `j` is the end or a non-space. |
| Strings.SkipTrailingAt | goversion_select/goversion_select.go:91 | `k` is the trailing-skip index exactly when everything from `k` to `j` is space and `k` is `lo` or follows a non-space. |
| Strings.TrimSpace | goversion_select/goversion_select.go:91 | The result has no white space at either end and is no longer than the input. |
| Strings.TrimSpaceIsPadding | goversion_select/goversion_select.go:91 | The input is the result with only white space before and after it. |
| Strings.TrimSpaceOfPadded | goversion_select/goversion_select.go:91 | Trimming white-space padding returns exactly the padded text. |
| Strings.TrimSpaceFixes | goversion_select/goversion_select.go:91 | Trimming empties an all-space string and leaves a string without surrounding white space as it is. |
| Strings.Split | goversion_select/goversion_select.go:36 | Splitting never yields an empty list, no piece holds the separator, and joining the pieces gives back the input. |
| Strings.SplitJoin | goversion_select/goversion_select.go:36 | Splitting a join of separator-free parts returns exactly those parts. |
| Strings.SplitAfterSeparator | goversion_select/goversion_select.go:36 | A leading separator splits off an empty first piece. |
| Strings.SplitPlain | goversion_select/goversion_select.go:36 | A separator-free prefix glues onto the first piece of what follows. |
| ServicePlans.FindFrom | azdeployer/azclient.go:184-212 | Searching from position `i`, the result is "" when no later plan is suitable, and otherwise the name of the first suitable plan. |
| ServicePlans.FindLocationPlan | azdeployer/azclient.go:183-213 | The result is "" when no plan is suitable. Otherwise it is the name of the first plan that has every field, is in the location, is `Y1`, is reserved, is of kind `functionapp` and has type `Microsoft.Web/serverfarms`. |
| ServicePlans.FoundNameIsFirstSuitable | azdeployer/azclient.go:183-213 | A non-empty answer is the name of the first suitable plan. |
| ServicePlans.FirstSuitableExists | azdeployer/azclient.go:184-211 | When some plan is suitable, one of them is the first. |
| ServicePlans.ScanPages | azdeployer/azclient.go:167-180 | From page `i` on: not found exactly when every page arrived without a suitable plan. Found is the answer of a page all of whose predecessors had none. An error stops the loop at a page all of whose predecessors had none. |
| ServicePlans.GetLocationPlan | azdeployer/azclient.go:156-181 | Over the pages in order: `("", false, nil)` exactly when every page arrived without a match. `(name, true, nil)` carries the non-empty answer of the first page with a match. An error comes from a page reached before any match. |
| ServicePlans.FoundPlanIsSuitable | azdeployer/azclient.go:156-181 | A found name belongs to a suitable plan on one of the pages. |
| ServicePlans.ServicePlanRequest | azdeployer/azclient.go:141-151 | The requested plan carries no name in its body, and under any name it is suitable for its location. |
| ServicePlans.CreatedPlanIsFound | azdeployer/azclient.go:141-151 | The plan `CreateOrUpdateServicePlan` builds for a location, once listed under its name, passes the filter for that location and is found when no suitable plan precedes it. |
| ServicePlans.FindLocationPlanAsWritten | azdeployer/azclient.go:183-213 | The loop as written panics exactly when a plan without properties is reached before any suitable plan; otherwise it answers like the corrected filter. |
| ServicePlans.SkipFirst | azdeployer/azclient.go:184-209 | Skipping an unsuitable first plan does not change the answer. |
| ServicePlans.MissingPropertiesPanics | azdeployer/azclient.go:185-192 | A plan with every field but its properties makes the loop as written panic, where the corrected filter skips it. |
| FunctionApps.UpdateAppSettings | azdeployer/azclient.go:117-133 | Every new key holds its new value, and every other existing key keeps its value. No other key appears. |
| FunctionApps.UpdateComposes | azdeployer/azclient.go:127-130 | Applying an update twice is applying it once. Two updates in a row are one update in which the later value wins. |
| FunctionApps.ServerFarmID | azdeployer/azclient.go:223-225 | The ID is its nine parts joined by slashes, and when the names hold no slash it splits back into those parts. |
| FunctionApps.ServerFarmIDInjective | azdeployer/azclient.go:223-225 | Different slash-free subscription, resource group or plan names give different IDs. |
| FunctionApps.FarmIDPartsSplit | azdeployer/azclient.go:224 | The slash-join of the nine parts splits back into them when the names hold no slash. |
| FunctionApps.FarmIDIsJoin | azdeployer/azclient.go:224 | The `Sprintf` format is the slash-join of the nine parts. |
| FunctionApps.JoinFromFour | azdeployer/azclient.go:224 | Four parts peeled off the front of a slash-join. |
| FunctionApps.JoinCons | azdeployer/azclient.go:224 | A join of two or more parts is the first part, a separator and the join of the rest. |
| FunctionApps.ProvidersPath | azdeployer/azclient.go:224 | The tail of the ID format is the providers path followed by the plan. |
| FunctionApps.GroupAndSubscriptionPath | azdeployer/azclient.go:224 | The head of the ID format is the subscription path followed by the resource group. |
| FunctionApps.FunctionAppSettings | azdeployer/azclient.go:256-261 | Exactly the four fixed keys, with `WEBSITE_RUN_FROM_PACKAGE` set to the content URL. |
| FunctionApps.CreateFunctionApp | azdeployer/azclient.go:228-263 | It succeeds exactly when a plan is named or the lookup finds one. With no plan named: no plan found fails with "couldn't find a valid service plan", and a listing error fails with that error. On success, the site is a `functionapp,linux` app in the location on the farm of the named or found plan, and the settings are the existing ones merged with the four fixed ones. |
| FunctionApps.NamedPlanSkipsLookup | azdeployer/azclient.go:234-243 | With a plan named, the listing is never consulted. |
| FunctionApps.DeploymentSettings | azdeployer/azclient.go:256-261 | After a deployment, the settings are the old keys plus the four fixed keys with their fixed values, and every other old setting keeps its value. |
| FunctionApps.LookedUpPlanIsSuitable | azdeployer/azclient.go:234-245 | A looked-up plan is a suitable plan on one of the listed pages, and the site's server farm is that plan's. |

## Left out

- Concurrency: the mutex of `getVersions` is left out. The cache is a sequential state transition.
- HTTP is left out: reading the query, writing responses (status codes are the `Response.Status` values), `http.Get` and closing the body. The fetch outcome is an input.
- The `goversion` library's internals are left out: its version syntax, pre-release ordering, constraint syntax and `String()`. The parsers and `Check` are parameters, and `GreaterThan` is the numeric order with zero padding.
- `bufio.Scanner` is left out: its line splitting and its token-size limit. The body arrives as lines plus a flag for a scanner error.
- Time is left out: `time.Time`, `time.Since` and the `int64` nanosecond range of `time.Duration`. Times are unbounded integers, and the zero time is `None`. The time the body was read is part of the fetch outcome; that it is not earlier than `now` is not assumed.
- The Azure SDK is left out: clients, authorizers, `ListApplicationSettings`, `CreateOrUpdate` for sites and plans, `UpdateApplicationSettings`, `SyncFunctionTriggers`, and the paging iterator itself. Pages arrive as a list, where each entry is a page or the error fetching it.
- Setting values are strings, not `*string`. A nil `Properties` map, which would panic on write, is left out.
- The archive builder, `sign_storage`, the `cmd` programs, `helloworld` and `ping` are not part of this model.
- The handler has no `exclusive` flag and no fallback to the cache when no candidate matches: with candidates, the cache is never consulted.

## Findings

| source | as written | input that shows it | evidently intended | confidence | as-written member | corrected member |
|---|---|---|---|---|---|---|
| goversion_select/goversion_select.go:38-43 | An unparsable candidate gets a 400 written, but there is no `return`, so the loop goes on and appends a nil version. | `candidates=1.2.0,bogus`: the nil version reaches `constraint.Check` after the 400 was already written. | Stop the request with the 400 for the first unparsable candidate. | not executed | GoVersionSelect.CandidatesAsWritten, GoVersionSelect.NilCandidateReachesScan | GoVersionSelect.ParseCandidates (used by GoVersionSelect.Serve) |
| azdeployer/azclient.go:190 | `plan.Reserved` is read through the embedded `*AppServicePlanProperties` pointer, which is never checked for nil. | A listed plan that has location, kind, type and SKU name, but no properties: this is a nil dereference. | Skip a plan without properties, like any other plan with a missing field. | not executed | ServicePlans.FindLocationPlanAsWritten, ServicePlans.MissingPropertiesPanics | ServicePlans.FindLocationPlan (used by ServicePlans.GetLocationPlan) |
