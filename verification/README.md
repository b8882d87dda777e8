# The Caddy ingress controller, verified

A Dafny model of the parts of the Caddy ingress controller whose correctness is hard to see by
reading: the Lease lock that certificate storage uses between controller instances, the names it
makes from storage keys, the key-value view over Secrets, the compilation of Ingress rules into an
ordered list of Caddy routes, and the controller's work loop.

`dafny verify dfyconfig.toml` checks the whole project.

## How it is built

**The Lease lock.** `LeaseProtocol` is a step system: one optional Lease with a version, a clock
that only moves forward, and any number of attempts in flight, each in a slot of its own. An attempt
samples its clock, Gets, decides, and sends a Create or a versioned Update; the steps of all attempts
interleave freely. Replies may be lost, and a request whose caller gave up may still arrive. A step
that is not enabled changes nothing, so every statement about a run is about every sequence of steps,
and a statement about the end of every run is about every moment of it.

- `LeaseExclusion` follows the windows of the writes that reached the server. It needs nothing of the
  attempts: they may overlap within one instance, lag, and get lost. It needs one thing of Unlock,
  which deletes by name without looking at the holder: that it does not land under another instance's
  open window. That condition is exact.
- `LeaseBelief` follows the windows the instances were told of. These need one thing more: that a write
  which lands does not go back behind the renew time its instance was last told of, while that window
  is open. That condition too is exact, and so is that of Unlock on this side. Two things break it:
  overlapping attempts of one identity, as when an instance locks again before the refresh loop of its
  previous lock has noticed the release; and a clock that reads an earlier time than before, which a
  wall clock can.
- `LeaseSerial` shows that an instance which waits for one attempt at a time, and whose clock readings
  never go back, always meets it; and gives a run for each of the two ways not to. `LeaseSession` shows
  that an instance which locks, refreshes and unlocks one call after the other is such an instance.
- `LeaseHistory` says what the transition count and the acquire time mean; `LeaseRelease` that a
  deleted Lease stays deleted.
- `LeaseClient` and `LeaseRefresh` describe whole calls as sequences of attempts with everybody else's
  steps in between, and bound them in time. Each attempt has a slot of its own, so a request that was
  given up on stays under way and may land during later attempts. `SecretLocks` holds the methods
  themselves, each proved to produce such a call. `LeaseAnswers` says what each call answers and does in
  terms of the server's state and the faults alone.

**Keys and Secrets.** `Keys` writes the two regular expressions and the trims out as functions and
proves that the pipeline equals a single left-to-right scan; `KeyNames` proves from the scan what the
names are good for. In `SecretStorage` each answer is stated by the history of Store and Delete calls,
where two keys are the same when their letters and the gaps before them are.

**Routes.** `PathMatching` translates path rules, `Routes` runs the nested loops, `RouteOrder` sorts.
`Sorting` is the contract of Go's `sort.SliceStable`: an insertion sort in place, proved equal to a
function whose result is sorted, a permutation, and keeps ties in order, and is the only such result.

**The controller.** `Plugins`, `Conversion`, `IngressStore`, `IngressStatus` and `Controller`.

## What is assumed

- The API server: Create fails if the name exists; Update succeeds only if the object is still at the
  version Get returned; Delete is by name. Faults, clock lags and the steps of others are parameters.
- A clock reading is never ahead of true time. It may lag by any amount, unless a member says otherwise.
- A configuration that Caddy refuses leaves the old one running, and two configurations have equal
  JSON only if they are equal.
- Characters stand for bytes. Every byte outside ASCII is a separator to the key pipeline, just as the
  rune it belongs to is, and string lengths and comparisons in Go are by bytes.
- Request paths reach the routes as Caddy cleans them: they start with a slash and hold no empty
  element. Host matching is a parameter.
- Path rules have a path type, rules have an HTTP part, and configuration is rendered with a matcher
  plugin registered once. Other crashes are not assumed away: a missing ConfigMap and a path with a Resource
  backend both crash the code, and `Conversion.GenerationCrashesExactly`,
  `Conversion.MissingConfigMapCrashes` and `Controller.CrashesExactly` say exactly when.

## Where the code and its comments disagree

- `pkg/converter/converter.go:92` says listed plugins run in the order of the list. Lines 77-79 run
  the later-listed one first: `Plugins.LaterListedRunsFirst`, and exactly when the comment holds,
  `Plugins.SliceOrderExactly`.
- `internal/caddy/global/ingress_sort.go:61` says exact paths come before prefix paths. A prefix route
  is ranked by its first pattern, which has no star: `RouteOrder.PrefixBeatsExact`, and exactly when
  an exact rule wins, `RouteOrder.ExactWinsExactly`. What does hold is longest match, as far as no path has
  a star; with stars, `RouteOrder.LongestMatchWins` says exactly when.
- `pkg/storage/storage.go:80-82` says keys that differ only in case or separators get the same name. A
  dash and a dot between the same letters do not: `KeyNames.SeparatorsCanMatter`, and exactly when two
  keys collide, `KeyNames.CollideExactly`.
- `pkg/storage/storage.go:238-241` reports a Secret's creation time as its modification time. A second
  Store goes unseen: `SecretStorage.SecondStoreUnseen`, and exactly when the two times agree,
  `SecretStorage.ModifiedExactly`.
- `pkg/storage/storage.go:329-332` describes losing the lock as noticed. It is noticed only while
  the new holder's record is live; an expired one is taken back in silence:
  `LeaseRefresh.UnnoticedTakeover`, and exactly when the loss is noticed,
  `LeaseRefresh.TakeoverNoticedExactly`.

## Model

| member | source | states |
|---|---|---|
| LeaseExclusion.MutualExclusion | pkg/storage/storage.go:350-421 | Over every interleaving of any number of instances and goroutines no two distinct identities have an open window, if no Unlock lands under another's open window |
| LeaseExclusion.OwnWindowSuffices | pkg/storage/storage.go:407-421 | An Unlock inside the caller's own window meets that condition |
| LeaseExclusion.OwnUnlocksExclude | pkg/storage/storage.go:350-421 | So every run in which each Unlock lands in its caller's own window is exclusive |
| LeaseExclusion.UnlockExactly | pkg/storage/storage.go:407-421 | An Unlock leaves all later disciplined runs exclusive if and only if no other instance's window is open when it lands |
| LeaseExclusion.LateUnlockBreaks | pkg/storage/storage.go:412-414 | For every victim with an open window, the steps by which a late Unlock by someone else leads to two open windows |
| LeaseProtocol.RunConsistent | pkg/storage/storage.go:370-404 | In every run a cached version that is still current caches the current record |
| LeaseBelief.ForwardExclusion | pkg/storage/storage.go:312-404 | Over every run whose landing writes do not go back behind an open window their instance was told of, no two instances believe they hold the lock, however attempts of one identity overlap |
| LeaseBelief.WriteExactly | pkg/storage/storage.go:386-404 | A write leaves all later such runs exclusive if and only if its reading is not earlier than the renew time its instance was last told of, or that window has closed |
| LeaseBelief.BackwardWriteBreaks | pkg/storage/storage.go:351-404 | For every write that goes back and every rival, the steps that lead to two instances believing they hold the lock |
| LeaseBelief.UnlockExactly | pkg/storage/storage.go:407-421 | An Unlock leaves all later such runs exclusive if and only if no other instance believes its window open when it lands |
| LeaseBelief.OwnUnlocksExclude | pkg/storage/storage.go:312-421 | Instances that unlock only while they believe their own window open stay exclusive |
| LeaseSerial.BelievedExclusion | pkg/storage/storage.go:312-404 | The case of instances that wait for one attempt at a time and whose clock readings never go back: no two of them believe they hold the lock, despite lost replies and late requests |
| LeaseSerial.SerialRunForward | pkg/storage/storage.go:351-404 | Such instances never write back behind an open window |
| LeaseSerial.SetbackBreaksBelief | pkg/storage/storage.go:351-404 | A run without overlapping attempts in which one clock reading goes back and a rival gets in; `LeaseBelief.WriteExactly` is the condition it breaks |
| LeaseSession.TrySerial | pkg/storage/storage.go:350-405 | Every attempt, whatever its outcome, keeps its instance to that discipline if it waits for no other and its reading is no earlier than the last |
| LeaseSession.SessionSerial | pkg/storage/storage.go:246-421 | So does every sequence of waits and attempts, up to the Unlock |
| LeaseSession.LockSessionSerial | pkg/storage/storage.go:246-348 | In particular a Lock call with its refresh loop and the Unlock after it |
| LeaseSession.SerialOfEach | pkg/storage/storage.go:350-405 | A run in which each instance keeps to the discipline is serial |
| LeaseSerial.OverlapBreaksBelief | pkg/storage/storage.go:351-370 | A run from a fresh state in which two overlapping attempts of one identity leave an earlier renew time and a rival gets in; `LeaseBelief.WriteExactly` is the condition it breaks |
| LeaseSerial.RunKeepsSerial | pkg/storage/storage.go:351-404 | In serial runs the renew time never goes back within a tenure |
| LeaseHistory.RecordTellsHistory | pkg/storage/storage.go:363-404 | In every run the transition count is the number of holder changes since creation and the acquire time is the renew time of the write that began the tenure |
| LeaseHistory.TransitionsBounded | pkg/storage/storage.go:363-404 | If no holder renews with an earlier time, transitions times the lease duration is at most the time from the creation's renew time to the current one |
| LeaseHistory.SerialTransitionsBounded | pkg/storage/storage.go:363-404 | The same bound without that condition, for every serial run |
| LeaseRelease.NoResurrection | pkg/storage/storage.go:377-383 | A Lease that exists after a deletion was created by an attempt of Lock or TryLock whose Get came back empty |
| LeaseRelease.StaleForever | pkg/storage/storage.go:401-403 | An attempt whose cached version is gone can never write again, not even over a Lease deleted and created anew |
| LeaseRelease.RefreshAfterUnlock | pkg/storage/storage.go:374-404 | A refresh whose Get was answered before an Unlock can never write after it, in any interleaving |
| LeaseRefresh.RefreshStops | pkg/storage/storage.go:324-346 | A refresh ends the loop as released if and only if its Get found no Lease, and as lost if and only if it found a live foreign record |
| LeaseRefresh.TakeoverNoticedExactly | pkg/storage/storage.go:324-346 | An undisturbed refresh after a takeover reports the loss if and only if the new record is live by its clock, and otherwise takes the lock back and goes on |
| LeaseRefresh.UnnoticedTakeover | pkg/storage/storage.go:393-404 | The run in which a rival holds the lock for its whole lease and the first holder's loop never notices |
| LeaseClient.TryRuns | pkg/storage/storage.go:350-405 | An attempt that reports a renewal put a record on the server naming its own identity with its own clock reading, whatever happened around it; only a request given up on is left under way |
| LeaseClient.QuietTry | pkg/storage/storage.go:386-404 | An undisturbed attempt is refused if and only if another identity's record is live by its clock, and then changes nothing |
| SecretLocks.Cluster.TryAcquireOrRenew | pkg/storage/storage.go:350-405 | The method, statement by statement, yields exactly the protocol steps and the answer of one attempt, under every interference and with requests refused, replies lost, and requests that arrive after it returned |
| SecretLocks.Cluster.Lock | pkg/storage/storage.go:246-288 | The loop yields a complete Lock call: attempts that followed one another, all but the last going round again, and the result of the last |
| SecretLocks.Cluster.TryLock | pkg/storage/storage.go:294-310 | Acquired if and only if the attempt wrote; a held lock and a lost Create race are not errors, anything else is |
| SecretLocks.Cluster.KeepLockUpdated | pkg/storage/storage.go:312-348 | The loop goes on through transient failures, ends only at a done context, a lost lock or a released one, and leaves exactly the state its refreshes and waits led to |
| SecretLocks.Cluster.Unlock | pkg/storage/storage.go:407-421 | Deletes the Lease whoever holds it, also when the reply is lost; not found if it is absent, and no effect if the request is refused |
| LeaseClient.LockAttempts | pkg/storage/storage.go:252-287 | Every Lock call makes at most ceil(timeout / poll) + 1 attempts |
| LeaseClient.ShippedLockAttempts | pkg/storage/storage.go:28-45 | With the shipped values, at most 61 |
| LeaseClient.LockEndsInTime | pkg/storage/storage.go:252-287 | Every Lock call ends within the timeout, one wait and one attempt, and a cancelled one returns within the timeout and one wait |
| LeaseClient.LockSucceedsByWriting | pkg/storage/storage.go:252-259 | Lock reports success only if its last attempt wrote a record naming its identity |
| LeaseClient.AcquireAnswers | pkg/storage/storage.go:254-259 | An acquiring attempt never reports success without having written |
| LeaseAnswers.TryAnswersExactly | pkg/storage/storage.go:350-405 | The answer of every attempt by what its Get found, what its write found and which fault it met: the fault, released, held by whom, already exists, not found, conflict, or success |
| LeaseAnswers.TryLeavesLease | pkg/storage/storage.go:370-391 | An attempt that has nothing to write, or whose Get failed, leaves the Lease alone |
| LeaseAnswers.TryWritesExactly | pkg/storage/storage.go:393-404 | A write lands if and only if it finds what the Get found, with exactly which record; also when its reply is lost; a refused one has no effect, and one given up on stays under way |
| LeaseAnswers.BelievesExactly | pkg/storage/storage.go:376-404 | An instance believes in a window exactly if it waited for the write and was told of its success |
| LeaseAnswers.RejectedExactly | pkg/storage/storage.go:261-267 | Lock gives up at once if and only if its attempt met an Invalid or BadRequest fault, at the Get or at the write |
| LeaseAnswers.RetriesExactly | pkg/storage/storage.go:252-287 | Lock tries again if and only if its attempt failed otherwise, before the timeout, and the context lives; and when it times out or is cancelled |
| LeaseAnswers.LockRejectedExactly | pkg/storage/storage.go:252-287 | A whole Lock call is rejected if and only if its last attempt met such a fault; no earlier one did |
| LeaseAnswers.RefreshVerdictExactly | pkg/storage/storage.go:324-346 | What every refresh makes of the loop under every fault: it goes on, ends as released, ends as lost, or ends with the context, each exactly when |
| LeaseAnswers.TransientFailureGoesOn | pkg/storage/storage.go:336-341 | A refresh that fails with an API error never ends a loop whose context lives |
| LeaseAnswers.ShippedValues | pkg/storage/storage.go:28-45 | The shipped values allow one failed refresh in a row and no more, poll once per lease, and make 61 the bound on attempts |
| LeaseClient.AbandonedLeaseRecovered | pkg/storage/storage.go:252-287 | If the holder stopped renewing and nothing interferes, Lock succeeds by its second attempt when a poll lasts at least a lease |
| LeaseRefresh.StaysHeld | pkg/storage/storage.go:386-404 | While less than a lease passes since a renewal, no interleaving takes the Lease away, at any moment |
| LeaseRefresh.BeatRenews | pkg/storage/storage.go:312-348 | One turn of the loop leaves a renewal as old as one call and `age` if it succeeded, and older by one interval and one call if it failed |
| LeaseRefresh.LandRenews | pkg/storage/storage.go:393-404 | A renewal that lands makes every request of its instance that has been answered unable to land |
| LeaseRefresh.RefreshKeepsLock | pkg/storage/storage.go:312-348 | With at most k failed refreshes in a row and (k+1) intervals, (k+2) calls and `age` under the lease duration, the Lease names this instance at every moment of every turn; requests given up on may land late, and other attempts of the same identity may overlap if their Get is answered within `age` of their clock reading |
| LeaseRefresh.ShippedRefreshSurvivesOneFailure | pkg/storage/storage.go:28-32 | The shipped values allow k = 1 as long as three calls and `age` take less than a second |
| LeaseRefresh.AcquiredIsKept | pkg/storage/storage.go:252-259 | The same from the moment Lock or TryLock succeeds and starts the loop |
| LeaseRefresh.LoopIsRun | pkg/storage/storage.go:312-348 | What the refresh loop method produces is a run as those theorems need it |
| LeaseRefresh.LoneLoopIsRun | pkg/storage/storage.go:312-348 | With nobody else starting attempts under the identity, `age` is just the clock lag |
| Keys.CleanIsScan | pkg/storage/storage.go:65-89 | The regular expressions, lowercasing and trims together compute one left-to-right scan |
| KeyNames.PrefixCompatible | pkg/storage/storage.go:83-89 | The name of p is a string prefix of the name of p + r, for all strings |
| KeyNames.Idempotent | pkg/storage/storage.go:83-89 | Cleaning a cleaned key changes nothing |
| KeyNames.NameRoundTrip | pkg/storage/storage.go:83-89 | A name with its prefix cut off is a key for that same name |
| KeyNames.NoLonger | pkg/storage/storage.go:83-89 | A name is never longer than prefix plus key |
| KeyNames.ValidExactly | pkg/storage/storage.go:47-89 | With either shipped prefix the name is a valid RFC 1123 subdomain if and only if the key has an ASCII letter or digit, and then a valid object name if and only if it has at most 253 characters |
| KeyNames.CollideExactly | pkg/storage/storage.go:80-89 | Two keys get one name if and only if they have the same lowercased letters and digits with the same kind of gap before each |
| KeyNames.CollisionsShareLetters | pkg/storage/storage.go:80-89 | So colliding keys differ at most in case and separators |
| KeyNames.SeparatorsCanMatter | pkg/storage/storage.go:80-82 | The converse fails: a dash and a dot between the same letters give different names |
| KeyNames.AsciiExactly | pkg/storage/storage.go:65-84 | Which characters are letters and digits, by their codes, and that lowercasing shifts exactly the upper-case ones |
| KeyNames.CleanJoins | pkg/storage/storage.go:83-89 | What becomes of the separators around two words: dashes alone stay between them and in front, anything else is one dot or nothing |
| SecretStorage.ReplayIsLatest | pkg/storage/storage.go:151-204 | A map on names, fed any history of calls, answers with the latest Store of the key unless a Delete came later, and with the time of the first since; keys are compared without names |
| SecretStorage.CreatedByFirstStore | pkg/storage/storage.go:229-244 | The time Stat reports is that of the first Store of the key since its last Delete |
| SecretStorage.ModifiedExactly | pkg/storage/storage.go:238-241 | It is the time of the latest Store if and only if no Store since came at another time |
| SecretStorage.SecondStoreUnseen | pkg/storage/storage.go:238-241 | Two Stores for which it is not |
| SecretStorage.SecretStorage.Exists | pkg/storage/storage.go:138-149 | True if and only if the read worked and the key's latest call is a Store |
| SecretStorage.SecretStorage.Store | pkg/storage/storage.go:151-179 | A Store that reports success has stored its value; creates or replaces exactly that key's Secret and keeps its creation time, leaving every other key alone; an error means no effect, a write whose reply was lost, or a Secret that somebody deleted between the two requests, each exactly when |
| SecretStorage.SecretStorage.Load | pkg/storage/storage.go:181-193 | The value of the latest Store of the key, or not-exist |
| SecretStorage.SecretStorage.Delete | pkg/storage/storage.go:195-204 | The key is gone unless the request was refused, also when the reply is lost, and every other key is left alone; not found if there is none |
| SecretStorage.SecretStorage.List | pkg/storage/storage.go:206-227 | Lists exactly the stored keys that are their own clean form and lie under the clean form of the prefix; each names the very Secret it came from, and every stored key that literally starts with the prefix is among them by its clean form; a failed request is an error |
| SecretStorage.Matching | pkg/storage/storage.go:219-224 | The loop returns exactly the names under the prefix with the key prefix cut off, none twice |
| SecretStorage.SecretStorage.Stat | pkg/storage/storage.go:229-244 | The size of the latest Store, and as modification time the time of the first Store since the last Delete |
| PathMatching.PrefixMeaning | internal/caddy/ingress/matcher.go:34-48 | The patterns of a Prefix rule accept a request path if and only if the rule's elements are a prefix of the request's |
| PathMatching.PatternsMean | internal/caddy/ingress/matcher.go:34-48 | The patterns of every rule accept exactly what it says: anything without a path, an element-wise prefix, a literal prefix with a star, or the very path |
| PathMatching.TrimsOne | internal/caddy/ingress/matcher.go:38 | Exactly one trailing slash is trimmed |
| Routes.Route.MatcherHandler | internal/caddy/ingress/matcher.go:22-52 | Appends one matcher set with exactly the protocol, host and path of the input |
| Routes.BuildRoute | internal/caddy/global/ingress.go:37-57 | One route folded through all middlewares, or the first error or crash |
| Routes.GenerateRoutes | internal/caddy/global/ingress.go:33-63 | One route per path of every rule of every ingress, in loop order, or the first error or crash |
| Routes.GenerateFailsExactly | internal/caddy/global/ingress.go:33-63 | Generation fails with an error or a crash if and only if that is what the first failing middleware of the first failing path does |
| Routes.GeneratedRoutes | internal/caddy/global/ingress.go:33-63 | The i-th route carries exactly the matcher of the i-th path |
| Routes.InputsExactly | internal/caddy/global/ingress.go:34-37 | Every path of every rule of every ingress is there, at its place in the order of the loops, and nothing else is |
| Routes.BuildHandlers | internal/caddy/global/ingress.go:43-57 | A built route carries the handlers of every middleware, in their order |
| Routes.GeneratedBuilds | internal/caddy/global/ingress.go:34-63 | The i-th generated route is the one built for the i-th path |
| Routes.ReverseProxyMeans | internal/caddy/ingress/reverseproxy.go:26-71 | One handler for a Service, its error passed on, a crash for a Resource |
| RouteOrder.RouteTakesExactly | internal/caddy/ingress/matcher.go:22-52 | The i-th generated route takes a request if and only if it is https or the redirect is disabled by annotation, the rule's host takes its host, and the rule's path takes its path |
| RouteOrder.RouteLessIsRank | internal/caddy/global/ingress_sort.go:38-53 | The comparator is a comparison by band and then by descending length |
| RouteOrder.RouteLessWeak | internal/caddy/global/ingress_sort.go:38-53 | The comparator is a strict weak order, as the stable sort needs |
| RouteOrder.GeneratedSortable | internal/caddy/global/ingress_sort.go:28-42 | No generated route makes the sort read an empty list |
| RouteOrder.SortRoutes | internal/caddy/global/ingress_sort.go:37-55 | The routes end up stably sorted in place |
| RouteOrder.SortIngressRoutes | internal/caddy/global/ingress_sort.go:63-72 | Sorted if and only if smart sort is on |
| Sorting.StableSortUnique | internal/caddy/global/ingress_sort.go:38-54 | Any sorted rearrangement that keeps tied elements in order is the result of the sort |
| Sorting.SortKeepsTies | internal/caddy/global/ingress_sort.go:38-54 | The sort is stable |
| RouteOrder.LongestMatchWins | internal/caddy/global/ingress_sort.go:37-55 | The first route that takes a request came first among those ranked the same; it fixes most of the request if and only if no starred path overtakes the starless ones; and without stars its normalised path is at least as long as every other that takes the request |
| RouteOrder.RankedFixesMost | internal/caddy/global/ingress_sort.go:43-53 | What the bands of the comparator mean for the winner, both ways |
| RouteOrder.StarredPathLoses | internal/caddy/global/ingress_sort.go:43-53 | The paths on which longest match fails: a Prefix path is sorted ahead of every longer starred path below it, whichever is listed first |
| RouteOrder.BothTake | internal/caddy/ingress/matcher.go:34-48 | Every request path below the literal part of such a starred path is taken by both |
| RouteOrder.FirstHitWins | internal/caddy/global/ingress_sort.go:57-72 | When an exact rule without a star takes the request, the winner is the first generated route for that very path |
| RouteOrder.ExactWinsExactly | internal/caddy/global/ingress_sort.go:57-72 | Then an exact rule wins if and only if one already comes before every Prefix rule for the same path |
| RouteOrder.PrefixBeatsExact | internal/caddy/global/ingress_sort.go:61 | The input on which the documented order fails |
| Plugins.GetOrderIndex | pkg/converter/converter.go:61-68 | The first position of the name in the list, or -1 |
| Plugins.ComparatorTotal | pkg/converter/converter.go:70-86 | The comparator is a strict total order, for every list with duplicates and unknown names |
| Plugins.OrderDeterministic | pkg/converter/converter.go:95-108 | The plugin order does not depend on map iteration and holds each plugin once |
| Plugins.OrderMeaning | pkg/converter/converter.go:70-94 | Listed plugins come first; unlisted ones by descending priority, then name |
| Plugins.SliceOrderExactly | pkg/converter/converter.go:77-92 | Listed plugins follow the order of the list if and only if at most one of them is registered |
| Plugins.LaterListedRunsFirst | pkg/converter/converter.go:77-79 | A list the code reverses |
| Plugins.RunsEarlierExactly | pkg/converter/converter.go:70-86 | One plugin runs before another if and only if the comparator says so |
| Plugins.Registry.RegisterPlugin | pkg/converter/converter.go:51-59 | Adds a plugin under a new name, and panics with nothing changed on a taken one |
| Plugins.Registry.Plugins | pkg/converter/converter.go:95-108 | The instances of all registered plugins in that order |
| Conversion.ConvertToCaddyConfig | internal/caddy/convert.go:14-26 | All global plugins in order on one configuration, up to the first failure |
| Conversion.RenderedRoutes | internal/caddy/convert.go:14-26 | The rendered routes are the generated ones, sorted if and only if smart sort is on and the sorter runs after the generator |
| Conversion.ContributionsKept | internal/caddy/convert.go:14-26 | The configuration keeps what every other plugin contributes, in plugin order |
| Conversion.MiddlewaresInOrder | internal/caddy/global/ingress.go:26-31 | The middlewares are those of the ingress plugins, in plugin order |
| Conversion.SorterCrashesExactly | internal/caddy/global/ingress_sort.go:28-72 | The sorter crashes if and only if the ConfigMap is absent, or smart sort is on for two routes or more of which it cannot read one |
| Conversion.SorterRunsLastExactly | internal/caddy/global/ingress_sort.go:15-22 | The sorter runs after the generator if and only if the order list does not put its name after the generator's |
| Conversion.RenderedLongestMatch | internal/caddy/convert.go:14-26 | What `LongestMatchWins` says of the winner holds of the configuration that conversion returns |
| Conversion.ShippedPlaces | pkg/converter/converter.go:95-108 | For every registry with the shipped generator, sorter and matcher, every order list and every map iteration: each runs once, and the generator before the sorter if and only if the list does not say otherwise |
| Conversion.ShippedLongestMatch | internal/caddy/convert.go:14-26 | The same for the plugins of such a registry under every order list that leaves the sorter last |
| Conversion.PluginsDetermined | pkg/converter/converter.go:95-108 | The instances conversion runs do not depend on map iteration |
| Conversion.ConversionFailsExactly | internal/caddy/convert.go:14-26 | Conversion fails with an error or a crash if and only if that is what the first failing plugin fails with on the store |
| Conversion.ConversionCrashesExactly | internal/caddy/global/ingress_sort.go:63-66 | Where nothing but a missing ConfigMap makes a plugin fail, conversion crashes if and only if the ConfigMap is absent and the sorter, or another plugin that reads it unchecked, is registered |
| Conversion.MissingConfigMapCrashes | internal/caddy/global/ingress_sort.go:63-66 | Where a plugin that reads the ConfigMap unchecked runs before any that returns an error, and none crashes otherwise, conversion crashes if and only if the ConfigMap is absent |
| Conversion.GenerationCrashesExactly | internal/caddy/global/ingress.go:33-63 | With a ConfigMap present and no other plugin failing, conversion crashes if and only if the first failing middleware of the first failing path crashes |
| Conversion.ResourceBackendCrashes | internal/caddy/ingress/reverseproxy.go:26-36 | One path with a Resource backend crashes conversion with the ConfigMap present |
| Conversion.ConversionNeverPanics | internal/caddy/global/ingress_sort.go:28-72 | With a ConfigMap present the sorter never crashes on what the generator made: conversion crashes only where another plugin or a middleware does |
| IngressStore.Store.AddIngress | pkg/store/store.go:28-43 | Overwrites the entry of that UID in place, or appends |
| IngressStore.Store.PluckIngress | pkg/store/store.go:45-65 | Swaps the first entry of that UID with the last and cuts the slice |
| IngressStore.Store.Handle | internal/controller/action_ingress.go:45-70 | After every event the slice holds exactly the latest ingress of each UID not deleted since, once |
| IngressStore.UpsertRepresents | pkg/store/store.go:28-43 | Overwriting or appending keeps the slice the map of the latest events |
| IngressStore.PluckRepresents | pkg/store/store.go:45-65 | So does the swap-remove |
| IngressStore.Store.HasManagedTLS | pkg/store/store.go:67-74 | True if and only if some UID's latest ingress has a TLS entry |
| IngressStatus.EqualExactly | internal/controller/action_status.go:93-121 | The sorted statuses compare equal if and only if the address pairs agree as multisets |
| IngressStatus.IngressSliceEqual | internal/controller/action_status.go:93-108 | True if and only if the pairs agree position by position |
| IngressStatus.PairsTell | internal/controller/action_status.go:98-105 | Pairs agree exactly where hostnames and IPs do |
| IngressStatus.ArrangedByName | internal/controller/action_status.go:111-121 | A status is put in the order of its hostnames, and of its IPs where these agree |
| IngressStatus.AddressesOf | internal/controller/action_status.go:125-132 | Each endpoint goes into the field of its kind, and none is lost or made up |
| IngressStatus.AddressesByIP | internal/controller/action_status.go:134-136 | The controller's addresses come in the order of their IPs |
| Strings.BeforeExactly | internal/controller/action_status.go:113-119 | The order of strings: the first difference decides, and a proper prefix comes first |
| IngressStatus.SliceToLoadBalancerIngress | internal/controller/action_status.go:124-139 | The addresses of the endpoints, stably sorted by IP alone |
| IngressStatus.Statuses.UpdateIngStatuses | internal/controller/action_status.go:44-66 | Queues an update for exactly the ingresses whose pairs differ as multisets, and sorts every status |
| IngressStatus.ResyncQueuesNothing | internal/controller/action_status.go:44-66 | After a successful update the same endpoints in any order queue nothing |
| Controller.CaddyController.ReloadCaddy | internal/controller/controller.go:259-282 | The cache changes exactly when a new configuration was loaded |
| Controller.CaddyController.ProcessNextItem | internal/controller/controller.go:223-249 | The handler's effect on the store, then a reload of that store, unless the handler failed |
| Controller.CaddyController.RunWorker | internal/controller/controller.go:217-220 | The loop yields a run of the items, stops early only by crashing, and at every moment the slice is the map of the ingress events so far |
| Controller.ReloadSound | internal/controller/controller.go:223-282 | In every run Caddy runs what the cache says, which is the rendering of the store at the last error-free item, skipped reloads included |
| Controller.HandlerFailsExactly | internal/controller/action_ingress.go:45-70 | Which items end with a handler's error |
| Controller.ItemExactly | internal/controller/controller.go:223-282 | What an item comes to: once handler and conversion went through it is error-free if and only if Caddy takes the configuration or already has it, and the cache changes exactly when Caddy took a new one |
| Controller.ReloadsExactly | internal/controller/controller.go:223-282 | Over every run, when an item reloads, and that Caddy runs the configuration it took last |
| Controller.OptionsInForce | internal/controller/action_configmap.go:46-71 | Every item is converted with the options of the latest ConfigMap that parsed, unless it was deleted since |
| Controller.OptionsMean | internal/controller/action_configmap.go:46-71 | The same said of the item that set them and the items after it |
| Controller.RunningLongestMatch | internal/controller/controller.go:223-282 | So after an error-free item the running routes give a request to that winner among the ingresses of that moment |
| Controller.ShippedRunningLongestMatch | internal/controller/controller.go:223-282 | The same for the plugins of a registry, with the ingresses being the latest of each UID by the events so far |
| Controller.CrashesExactly | internal/controller/action_configmap.go:66-71 | Under the condition of `MissingConfigMapCrashes` the worker stops exactly at the first item that deletes the ConfigMap, whatever errors other items lead to |

## Left out

- LeaseProtocol.RunConsistent: times are unbounded integers and the transition count is a natural number; the truncation to microseconds in the Lease's times and the 32-bit width of the count are not modelled.
- SecretLocks.Cluster.KeepLockUpdated: observed over a finite list of rounds; the loop itself has no end. That Lock and TryLock start it is stated by `AcquiredIsKept`, not by spawning it.
- SecretStorage.SecretStorage.Store: requests that arrive after the call returned are later calls of the history. Secrets under other labels are neither listed nor present.
- SecretStorage.SecretStorage.List: the recursive flag plays no part, as in the code.
- PathMatching.PrefixMeaning: rule paths without a star; Caddy's other wildcards, escapes and case folding in paths are not modelled.
- IngressStatus.Statuses.UpdateIngStatuses: the statuses are one field of the model, so sorting them is visible there; that they alias objects of the informer's cache is not modelled, nor are the pool and its workers.
- Kubernetes clients, informers, the work queue and logging: the model starts from the items in the order they are handled.
- Ingress class filtering (internal/k8s/ingress.go): events are those already accepted.
- TLS secret files and environment lookups: file access; only the error a handler returns is kept.
- ConfigMap decoding, trusted proxies and other parsing: thin wrappers over libraries.
- The redirect, rewrite, reverse proxy, metrics, health check and other small plugins: arbitrary functions of the store or of one path, which leave the ingress routes alone.
- JSON encoding: taken as injective on configurations.
- Provisioning of the storage, the PROXY protocol wrapper, flags, start-up, shutdown and Helm charts: plumbing.
