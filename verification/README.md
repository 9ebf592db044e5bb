# Verified models of the scanner's core

Dafny models of the parts of the Goonami scanner whose behaviour is hardest to see from the code,
with proofs of what they guarantee. `dafny verify dfyconfig.toml` checks everything.

| part | files | what is proved |
|---|---|---|
| Brute-force worker pool | `WorkerPool`, `WorkerPoolProtocol`, `WorkerPoolTheorems`, `WorkerPoolBounds`, `WorkerPoolGates`, `WorkerPoolScan` | the shared state as a class; every interleaving of the workers as a transition system with an inductive invariant; completeness, budget accounting, exact bounds on overshoot, what each stop check bars for good, and termination for all runs; one worker among others; with one worker alone, refinement of a plain scan and of a declarative result |
| Credential store and candidates | `CredentialStore`, `CredentialMeaning`, `BruteForceOptions` | the store as a class tied to a value; what every sequence of calls keeps; the exact order the reverse move-to-front loop produces; no candidate pair twice |
| Crawler | `CrawlRun`, `CrawlProtocol`, `CrawlTheorems`, `CrawlTermination`, `CrawlSteps`, `CrawlChains`, `CrawlDuplicates`, `CrawlSeeds`, `CrawlRequests`, `CrawlReach`, `CrawlCoverage`, `CrawlScope`, `CrawlErrors`, `CrawlQueue`, `UrlNormalization` | the crawl as a transition system with 32-bit counters; conservation of `workCount`, safe closing of the queue, when runs are bounded and depths cannot wrap, an exact bound on duplicates, when the request limit holds and the count is right, what is reached from the seeds and when all of it is, that nothing out of scope is, which errors surface; the URL key |
| Metrics | `MetricSeries`, `MetricOrder`, `MetricLabels`, `MetricLog`, `MetricCollector`, `MetricRecording` | unique decodability of the series key, a total order, the canonical form of labels, and a capped mutable index that refines the log of all observations |
| Fingerprint registry | `HashClaims`, `HashLoading`, `HashOrder`, `HashRegistry` | shared identities updated in place equal a function of the claims; when load order matters, exactly |
| Templated engine | `TemplatedEngine`, `TemplatedTheorems`, `TemplatedRuns`, `TemplatedSeparation` | validation, phase slicing, when separate runs of the phases add up to the full run, cleanups on every way out |
| CIDR ranges | `Cidr` | expansion and closed-form count agree, up to the last address of a family |

`Sequences` holds the vocabulary of ordered lists without repetition, `Sorting` one sort by a strict
order and the proof that its result is the only one possible.

## How the models are built

Objects that methods change are classes with the same fields; a function (`View`) gives their value,
and each method states its whole new value as a function of the old one. The lemmas are about those
functions. The two concurrent components are, besides, transition systems in which each critical
section, channel operation, limiter return and external call is one atomic step and each goroutine
has a program counter; statements about them hold for every run of any length.

What the code calls and this model cannot see is a parameter, universally quantified: the service a
credential is tested against (a set of possible answers, or one answer for the functional results),
scope and exclusion matching, link extraction, how many requests the HTTP client makes for a URL, the 64-bit hash of a hexadecimal string, the cleaning
of a label value, the runner of a templated action with its environment of any type, and the set-up
of that environment. Clocks and the rate limiter are nondeterministic steps.

## Where promise and code differ

The models follow the code. Where a promise does not hold of it, the exact condition is proved.

- Default credentials are promised to be tested before generic ones (`options.go:32-34`). The
  candidates are ordered user by user, so this holds exactly when no default user but the last has a
  password of its own in the base store: `DefaultsTestedFirst`, with `DefaultsNotFirstExample`.
- `AddUser` does nothing for a user first seen by `AddPasswordForUser`, who stays unlisted and
  contributes no candidate: `AddUserLists`, `ListedOnlyByPrepending`.
- `CollapseToPasswordOnly` is documented as collapsing all credentials; it keeps those of listed
  users only, so every known password is kept exactly when each is known for a listed user:
  `CollapseKeepsAllIff`, with `CollapseLosesExample`.
- `CountVisited` is documented as the number of requests sent; it is the number of different keys
  queued. Every redirect the client follows is a request as well (`httpcrawler.go:133-138`,
  `core/net/http/simpleclient/simpleclient.go:77-91`). With enough requests left the count is right in
  every crawl that returns without error, with a given concurrency and given numbers of requests per
  page, exactly when no page is crawled, or one at a time and each takes one request:
  `CountIsRightIff`, with `CountedTwice` for the concurrency and `CountedWithRedirects` for redirects.
  One page at a time, with any requests left, it is right exactly when the pages refused are as many as
  the extra requests: `CountIsRequestsIff`, with `CountWithoutRequests`.
- `max_requests` is documented as a hard limit on the requests made
  (`httpcrawler_client_config.proto:62-66`). The counter counts pages, and its sum wraps in 32 bits
  before it is compared. So it is a hard limit exactly when no page takes a request, it grants nothing,
  or it is below the largest int32 and no redirect is followed: `LimitHoldsIff`, `CounterKeepsLimitIff`.
- The depth of a page is meant to be the number of links followed. It wraps, and a page is queued at a
  negative depth, in some run exactly when the maximum depth and the maximum number of requests are both
  the largest int32; with these limits, and no others, a crawl need not end: `DepthWrapsIff`,
  `RunsBoundedIff`.
- The maximum depth is defined by the links followed in a chain
  (`httpcrawler_client_config.proto:58-60`), yet a page within it can be missed although nothing fails: a
  page is looked at for links once, at the depth it was first met, which need not be the least. All pages
  within the maximum depth are visited in every such crawl exactly when it is at most one, or the largest
  int32: `AlwaysCoversIff`, with `LostRun`. The links of a page that answered are never lost:
  `AnsweredLinksVisited`.
- A URL is meant to be queued once. Checking and adding are two critical sections, so it can be queued
  as often as pages are crawled at once, no more, and once in every run exactly for a concurrency of
  zero or one: `QueuedTimesIff`, `QueuedOnceIff`, with `CopiesRun`.
- With a concurrency of zero a crawl hangs on the first page it receives, exactly when some seed is
  eligible: `EndsByReturning`, with `HangingRun`.
- `fullyDecode` is documented as decoding until nothing changes; it undoes at most ten layers:
  `TenLayers`, with `ElevenLayersExample`. It keeps its promise for every text of a given length exactly
  when that length is at most 22: `SettledIffShort`.
- The phases of a workflow can be run by separate calls, as weak-credential plugins do
  (`plugins/detectors/templatedweakcredentials/handler.go:46-104`), each from an environment of its own.
  When all these are alike, separate runs add up to the full run for every workflow exactly when nothing
  an action does to the environment shows in a later phase: `SeparateFromOneIff`, with
  `SeparateRunsDoNotCompose`. When they are unrelated, exactly when how actions end does not depend on
  the environment at all: `SeparateRunsComposeIff`.
- The order of loading fingerprints matters when a file skips, for an empty path, versions of a hash
  that another file registers and that would add to it: `OrderMattersIff`, with `OrderMattersExample`.

## Model

| member | source | states |
|---|---|---|
| `CredentialStores.MoveToFrontIsWithout` | common/credentialstore/credentialstore.go:139-148 | index, delete and prepend put the element first and keep the others in order, without repetition |
| `CredentialMeaning.ApplyMeans` | common/credentialstore/credentialstore.go:81-188 | what each of the seven calls does to the list of users, the keys and every list of passwords, order included: a new user is listed last, new passwords arrive in the order given |
| `CredentialMeaning.AllPasswordsInTurn` | common/credentialstore/credentialstore.go:168-188 | the passwords gathered by a collapse are those of each listed user in turn |
| `CredentialStores.ApplyOk` | common/credentialstore/credentialstore.go:81-188 | every operation keeps listed users known and all lists free of repetitions |
| `CredentialStores.RunOk` | common/credentialstore/credentialstore.go:49-188 | no sequence of calls on a new store ever lists a user or a password twice |
| `CredentialStores.AddPasswordReaches` | common/credentialstore/credentialstore.go:104-117 | a password for all users reaches exactly the listed users |
| `CredentialStores.AddUserLists` | common/credentialstore/credentialstore.go:119-131 | a user is listed afterwards iff listed before or not known as a key; a concrete user is never listed |
| `CredentialStores.ListedOnlyByPrepending` | common/credentialstore/credentialstore.go:88-149 | over any calls short of a collapse, a user known but not listed gets listed iff it is prepended |
| `CredentialStores.CollapseKeeps` | common/credentialstore/credentialstore.go:168-188 | collapsing leaves one user with exactly the listed users' passwords, each once |
| `CredentialStores.CollapseKeepsAllIff` | common/credentialstore/credentialstore.go:168-188 | every known password survives iff each is known for a listed user |
| `CredentialStores.CollapseLosesExample` | common/credentialstore/credentialstore.go:88-102 | a store one call away from new whose only password is lost |
| `CredentialStores.CredentialStore.constructor` | common/credentialstore/credentialstore.go:48-54 | a new store is empty |
| `CredentialStores.CredentialStore.Copy` | common/credentialstore/credentialstore.go:66-79 | a fresh store of equal value; the original is unchanged |
| `CredentialStores.CredentialStore.AddPasswordForUser` | common/credentialstore/credentialstore.go:88-102 | the new value of the store; an already known password changes nothing |
| `CredentialStores.CredentialStore.AddMultiplePasswordsForUser` | common/credentialstore/credentialstore.go:81-86 | the loop adds the passwords one after the other |
| `CredentialStores.CredentialStore.AddPassword` | common/credentialstore/credentialstore.go:104-117 | the loop over the listed users, on the store's value |
| `CredentialStores.CredentialStore.AddUser` | common/credentialstore/credentialstore.go:119-131 | a user without a key is listed last with no password; otherwise nothing changes |
| `CredentialStores.CredentialStore.PrependUser` | common/credentialstore/credentialstore.go:133-149 | the user is first in the list, moved there if listed |
| `CredentialStores.CredentialStore.PrependPasswordForUser` | common/credentialstore/credentialstore.go:151-166 | the password is first under its user, moved there if known |
| `CredentialStores.CredentialStore.CollapseToPasswordOnly` | common/credentialstore/credentialstore.go:168-188 | the nested loops leave all listed users' passwords in order of first occurrence |
| `BruteForceOptions.PrependOrder` | common/bruteforce/options.go:61-80 | usernames become the default users in order, then the other old ones; under each user its default passwords, then the other old ones |
| `BruteForceOptions.PrependDefaultCredentials` | common/bruteforce/options.go:61-80 | the descending loop of mutating calls computes that store |
| `BruteForceOptions.PrepareCredentialStore` | common/bruteforce/options.go:41-59 | the base store is copied and not changed; in password-only mode one user without a name is left, with all default passwords and then those of the listed users, each once; else the default users and under each user its default passwords come first |
| `BruteForceOptions.PreparedMeans` | common/bruteforce/options.go:41-80 | the same of the function on values, with the lists written out from the defaults and the base store |
| `BruteForceOptions.CandidatesMembers` | common/bruteforce/bruteforce.go:156-167 | the candidates are exactly the known passwords of the listed users |
| `BruteForceOptions.CandidatesInOrder` | common/bruteforce/bruteforce.go:156-167 | which candidate stands at which place: user by user in the order of the store, each with its passwords in order |
| `BruteForceOptions.CandidatesLength` | common/bruteforce/bruteforce.go:156-167 | the list is as long as the passwords of all listed users together |
| `BruteForceOptions.CandidatesDistinct` | common/bruteforce/bruteforce.go:156-167 | no pair occurs twice |
| `BruteForceOptions.PreparedCandidatesDistinct` | common/bruteforce/options.go:41-80 | whatever calls built the base store, in both modes, no pair is tested twice |
| `BruteForceOptions.Candidates` | common/bruteforce/bruteforce.go:156-167 | the nested loops list the candidates user by user, without repetition |
| `BruteForceOptions.DefaultsTestedFirst` | common/bruteforce/options.go:32-34 | all defaults come before everything generic iff no default user but the last had other passwords |
| `BruteForceOptions.PasswordOnlyDefaultsFirst` | common/bruteforce/options.go:68-72 | in password-only mode that condition always holds |
| `BruteForceOptions.DefaultsNotFirstExample` | common/bruteforce/options.go:61-80 | a store and two defaults for which it fails |
| `WorkerPools.NumWorkers` | common/bruteforce/worker.go:84-87 | the least of the concurrency (at least one), the number of candidates and a positive budget |
| `WorkerPools.SortedKeeps` | common/bruteforce/worker.go:210-211 | sorting distinct match indices yields exactly them, strictly increasing |
| `WorkerPools.WorkerPool.constructor` | common/bruteforce/worker.go:76-82 | a pool starts without attempts or matches |
| `WorkerPools.WorkerPool.HasBudget` | common/bruteforce/worker.go:152-161 | whether attempts are left; marks the budget exhausted if not |
| `WorkerPools.WorkerPool.TryClaimAttempt` | common/bruteforce/worker.go:163-173 | counts one attempt, or marks the budget exhausted |
| `WorkerPools.WorkerPool.AddMatch` | common/bruteforce/worker.go:175-179 | records a match after the others |
| `WorkerPools.WorkerPool.IsDone` | common/bruteforce/worker.go:181-191 | stop on an exhausted budget, or on a match with stop-at-first |
| `WorkerPools.WorkerPool.IsUserDone` | common/bruteforce/worker.go:193-203 | true iff some recorded match has this username |
| `WorkerPools.WorkerPool.Result` | common/bruteforce/worker.go:205-224 | the matched credentials in strictly increasing candidate order, none lost; exhaustion is not reported after stopping at the first match |
| `WorkerPools.WorkerPool.RunWorker` | common/bruteforce/worker.go:102-150 | the loop of a worker over the candidates it receives computes what the work function says, for any context, limiter and doings of other workers while it waits |
| `WorkerPoolScan.SecondRoundMatters` | common/bruteforce/worker.go:125-136 | if while it waits another worker stops the pool or spends the budget, the worker returns without a test; if one finds its candidate's user, it passes the candidate over |
| `WorkerPoolScan.EndsWithError` | common/bruteforce/worker.go:109-127 | a context that is over and a limiter that fails end the loop with an error and without a test |
| `WorkerPoolScan.AloneIsScan` | common/bruteforce/worker.go:102-150 | alone, with every candidate, the loop does what the plain scan does |
| `WorkerPoolProtocol.StepInv` | common/bruteforce/worker.go:102-203 | every step keeps ownership of candidates, the attempt accounts, findings, stop reasons and recorders |
| `WorkerPoolProtocol.ReachableInv` | common/bruteforce/worker.go:69-150 | the invariant holds in every state any interleaving reaches |
| `WorkerPoolTheorems.Completeness` | common/bruteforce/worker.go:109-149 | a run that ends without error and without a stop reason tested every candidate, or skipped it for a user with a match |
| `WorkerPoolTheorems.UsersFound` | common/bruteforce/worker.go:109-149 | against a consistent service, the users with a match are exactly those with a valid candidate |
| `WorkerPoolTheorems.SomethingFound` | common/bruteforce/worker.go:205-224 | whatever the settings, a run not reported exhausted finds something iff some candidate is valid |
| `WorkerPoolTheorems.ReportedCredentials` | common/bruteforce/worker.go:205-224 | the report lists exactly the candidates found valid, strictly increasing in index |
| `WorkerPoolTheorems.ReportedUsers` | common/bruteforce/worker.go:205-224 | without stop-at-first and exhaustion, the reported usernames are exactly those with a valid candidate |
| `WorkerPoolTheorems.BudgetAccounting` | common/bruteforce/worker.go:134-148 | always: no candidate tested twice, never more attempts than the budget; at the end attempts equal tests |
| `WorkerPoolTheorems.ExhaustedBudget` | common/bruteforce/worker.go:152-173 | exhaustion means every attempt was spent and a candidate was dropped untested, so there were more candidates than attempts |
| `WorkerPoolTheorems.StopAtFirstOvershoot` | common/bruteforce/worker.go:109-149 | with stop-at-first: at most one match per worker, and after the first match at most one late test per other worker |
| `WorkerPoolGates.ClosedGateHolds` | common/bruteforce/worker.go:109-136 | for each of the seven checks, in both rounds: once its reason to stop is there, no candidate in the channel or ahead of the check ever passes it or is tested, in any continuation of any run |
| `WorkerPoolGates.ErrorsEndTheRun` | common/bruteforce/worker.go:125-142 | after an error of the limiter or a test the worker has returned and the run does not succeed, in any continuation; a candidate whose limiter failed is never tested |
| `WorkerPoolGates.FailsIff` | common/bruteforce/worker.go:95-142 | a run fails iff some worker saw its context over, or an error of the limiter or of a test; stopping early is no error |
| `WorkerPoolTheorems.MatchesPerUser` | common/bruteforce/worker.go:118-133 | no username is reported more often than there are workers |
| `WorkerPoolBounds.MatchAll` | common/bruteforce/worker.go:109-149 | whatever the settings, if the service accepts every candidate, some run gets every worker to test and record one, all but the first after a match was recorded |
| `WorkerPoolBounds.OvershootIff` | common/bruteforce/worker.go:109-149 | the least bounds on matches and on late tests over all successful runs with stop-at-first are the number of workers and one less |
| `WorkerPoolBounds.MatchesPerUserIff` | common/bruteforce/worker.go:118-133 | the least bound on the matches of one username is the number of workers, with and without stop-at-first |
| `WorkerPoolTheorems.Terminates` | common/bruteforce/worker.go:69-100 | a bound on the length of every run, and no run gets stuck |
| `WorkerPoolScan.OneWorkerRefinesScan` | common/bruteforce/worker.go:102-150 | with one worker every successful run of the protocol ends in the state the scan computes |
| `WorkerPoolScan.ScanDeclared` | common/bruteforce/worker.go:102-150 | the scan fails iff a candidate it reaches fails; else it matches the first valid candidate of each user among the first `maxAttempts` not skipped, cut after the first hit when asked to, and says exactly when the budget ran out |
| `WorkerPoolScan.OneWorkerDeclared` | common/bruteforce/worker.go:69-150 | the protocol with one worker yields that declared result |
| `WorkerPoolScan.TestCredentialsAlone` | common/bruteforce/worker.go:69-100 | what testCredentials reports with one worker |
| `UrlNormalization.FullyDecode` | common/clients/httpcrawler/crawlrun.go:88-99 | the loop decodes at most ten times, stopping at an error or a fixed point |
| `UrlNormalization.HexDigitsBothCases` | common/clients/httpcrawler/crawlrun.go:91 | a hexadecimal digit has the value of its position in either case, and there are no others |
| `UrlNormalization.BadIff` | common/clients/httpcrawler/crawlrun.go:91-94 | decoding fails iff some percent sign is not followed by two hexadecimal digits |
| `UrlNormalization.UnescapeEscape` | common/clients/httpcrawler/crawlrun.go:91 | decoding undoes one layer of percent-encoding, whatever else the encoder escapes |
| `UrlNormalization.TenLayers` | common/clients/httpcrawler/crawlrun.go:88-99 | a text without percent signs is recovered from k layers iff k is at most ten or there is nothing to encode |
| `UrlNormalization.ElevenLayersExample` | common/clients/httpcrawler/crawlrun.go:73-99 | a slash under eleven layers keeps one, and another key than the slash |
| `UrlNormalization.SettledIffShort` | common/clients/httpcrawler/crawlrun.go:88-99 | every text of n bytes is decoded until nothing changes iff n is at most 22 |
| `UrlNormalization.NormalizedShape` | common/clients/httpcrawler/crawlrun.go:73-86 | a key is the start of the decoded URL up to trailing slashes before the first mark; it holds no mark and ends in no slash |
| `UrlNormalization.QueryIgnored` | common/clients/httpcrawler/crawlrun.go:73-86 | any query or fragment, however encoded, leaves the key of a plain URL unchanged |
| `UrlNormalization.EncodedQueryIgnored` | common/clients/httpcrawler/crawlrun.go:73-86 | so does one whose mark was encoded up to ten times |
| `CrawlRuns.CrawlRun.QueuePage` | common/clients/httpcrawler/crawlrun.go:50-59 | counts the page and hands it to a detached sender |
| `CrawlRuns.CrawlRun.PageDone` | common/clients/httpcrawler/crawlrun.go:66-71 | takes one page off the count |
| `CrawlRuns.CrawlRun.AlreadyVisited` | common/clients/httpcrawler/crawlrun.go:101-108 | whether the URL's key was added |
| `CrawlRuns.CrawlRun.AddToVisited` | common/clients/httpcrawler/crawlrun.go:110-117 | adds the URL's key and nothing else |
| `CrawlRuns.CrawlRun.CountVisited` | common/clients/httpcrawler/crawlrun.go:119-124 | the size of the visited set cut to 32 bits |
| `CrawlRuns.CrawlRun.QueueForCrawl` | common/clients/httpcrawler/httpcrawler.go:250-280 | without interference a page is queued iff it is within the maximum depth, in scope, not excluded and new; an error iff scope matching fails within the depth |
| `CrawlRuns.SimpleCrawler.CheckAndIncreaseRequestCount` | common/clients/httpcrawler/httpcrawler.go:290-301 | grants and counts a page iff the 32-bit sum of the counter and one is within the maximum |
| `CrawlRuns.ToInt32Wraps` | common/clients/httpcrawler/httpcrawler.go:240 | a 32-bit value differs from the number it stands for by a multiple of 2^32 |
| `CrawlRuns.CounterKeepsLimitIff` | common/clients/httpcrawler/httpcrawler.go:290-301 | from zero the counter stays within the maximum and ever refuses iff the maximum is below the largest int32; otherwise it wraps and grants without end |
| `CrawlProtocol.CloseStep` | common/clients/httpcrawler/httpcrawler.go:147-173 | every step keeps the work count equal to the pages everywhere, the phases in order and the slots within the limit |
| `CrawlTheorems.FeedAloneIsQueueForCrawl` | common/clients/httpcrawler/httpcrawler.go:250-280 | uninterrupted, the protocol's steps do to a URL what one call does |
| `CrawlScope.OnlyAllowedPages` | common/clients/httpcrawler/httpcrawler.go:250-280 | in every reachable state every page on its way or answered is within the maximum depth, in scope and not excluded, and so is every URL the client was asked for |
| `CrawlErrors.ErrorsSurface` | common/clients/httpcrawler/httpcrawler.go:147-169 | a crawl that returns reports an error iff scope matching, a request, a response or a callback failed in some step; it is aborted only by such an error |
| `CrawlQueue.QueueHoldsIff` | common/clients/httpcrawler/httpcrawler.go:121-126 | a queue of n pages is reached in some crawl iff n is at most 500 |
| `CrawlTheorems.CloseIsSafe` | common/clients/httpcrawler/crawlrun.go:137-151 | in every reachable state the counter is the number of pages in senders, queue and goroutines; once the watcher saw zero there is no work anywhere and nothing is sent on the closed queue |
| `CrawlTheorems.ZeroIsStable` | common/clients/httpcrawler/crawlrun.go:137-151 | after seeding, a count of zero stays zero |
| `CrawlTheorems.ReachableVisits` | common/clients/httpcrawler/httpcrawler.go:272-278 | a key is visited iff it was queued or is about to be, and how often that is bounded by the slots |
| `CrawlTheorems.QueuedAtMost` | common/clients/httpcrawler/httpcrawler.go:272-278 | a key is queued at most as often as pages are crawled at once |
| `CrawlTheorems.VisitedIsQueued` | common/clients/httpcrawler/crawlrun.go:119-124 | when a crawl returns, the visited set is exactly the set of queued keys |
| `CrawlDuplicates.CopiesRun` | common/clients/httpcrawler/httpcrawler.go:272-278 | for every number of pages that can be crawled at once, a run in which all of them queue one key |
| `CrawlDuplicates.QueuedTimesIff` | common/clients/httpcrawler/httpcrawler.go:272-278 | a key can be queued n times in some crawl with a given concurrency and 32-bit limits iff n does not exceed it, or is one at a concurrency of zero, or it is unlimited |
| `CrawlDuplicates.QueuedOnceIff` | common/clients/httpcrawler/httpcrawler.go:272-278 | each key is queued at most once in all crawls iff the concurrency is zero or one |
| `CrawlTermination.ProceedDecreases` | common/clients/httpcrawler/httpcrawler.go:172-248 | every step of a page goroutine decreases the cost of what is outstanding |
| `CrawlTermination.Terminates` | common/clients/httpcrawler/httpcrawler.go:117-280 | if one of the limits is below the largest int32: a bound on the length of every run from seeds, depth and links per page, for any concurrency; no page lies deeper than the maximum |
| `CrawlTermination.Progress` | common/clients/httpcrawler/crawlrun.go:50-59 | a crawl can always go on until it returns, unless it holds a page and no slot exists |
| `CrawlChains.DepthWrapsIff` | common/clients/httpcrawler/httpcrawler.go:240 | some run queues a page at a negative depth iff the maximum depth and the maximum of requests are both the largest int32 |
| `CrawlChains.RunsBoundedIff` | common/clients/httpcrawler/httpcrawler.go:290-301 | the runs of each crawl with given limits are bounded in length iff one of the limits is below the largest int32 |
| `CrawlChains.LimitHoldsIff` | common/clients/httpcrawler/httpcrawler.go:129-187 | the requests made stay within the maximum in all crawls iff pages take none, nothing is granted, or no redirect is followed and the maximum is below the largest int32 |
| `CrawlSeeds.SeedsComeFirst` | common/clients/httpcrawler/httpcrawler.go:147-151 | the queue history starts with the keys of the eligible seeds in order, each once, and is no more until a page is crawled |
| `CrawlSeeds.EndsByReturning` | common/clients/httpcrawler/httpcrawler.go:147-169 | an unaborted run that cannot go on has returned iff the concurrency is not zero or no seed is eligible |
| `CrawlSeeds.HangingRun` | common/clients/httpcrawler/httpcrawler.go:153-161 | one eligible seed and no slot: a reachable state that is stuck with the page in hand |
| `CrawlRequests.PagesFetched` | common/clients/httpcrawler/httpcrawler.go:184-187 | a crawl that returns without error has asked the client for every page queued, duplicates included, as far as the counter granted them |
| `CrawlRequests.PagesBounded` | common/clients/httpcrawler/httpcrawler.go:240-280 | if one of the limits is below the largest int32, no crawl queues more pages than the tree of seeds, links per page and maximum depth has |
| `CrawlRequests.VisitedSize` | common/clients/httpcrawler/crawlrun.go:110-124 | the visited set is as large as the queue history iff nothing was queued twice, as with one page at a time |
| `CrawlRequests.CountIsRequestsIff` | common/clients/httpcrawler/crawlrun.go:119-124 | one page at a time, a crawl without error visited as many pages as requests were made iff the pages refused are as many as the extra requests; where no redirect is followed, iff none was refused |
| `CrawlRequests.CountIsRightIff` | common/clients/httpcrawler/crawlrun.go:119-124 | with enough requests for every page, the count is the requests made in all crawls without error iff the concurrency is zero, or one and every page takes exactly one request |
| `CrawlRequests.CountedTwice` | common/clients/httpcrawler/crawlrun.go:119-124 | for every other concurrency a run without error, with requests to spare, whose count is not the requests made, whatever a page takes |
| `CrawlRequests.CountedWithRedirects` | common/clients/httpcrawler/httpcrawler.go:133-138 | one page at a time, with any other number of requests per page, a run without error whose count is not the requests made |
| `CrawlRequests.CountWithoutRequests` | common/clients/httpcrawler/httpcrawler.go:184-187 | for every crawl with an eligible seed, no requests left and a maximum below the largest int32, a run without error that counts pages and fetches none |
| `CrawlRequests.SeedsOnlyCount` | common/clients/httpcrawler/httpcrawler.go:250-255 | at a maximum depth of zero the count is the number of different eligible seed keys, and, at one request per page, the requests made iff the counter grants them |
| `CrawlReach.QueuedIsReached` | common/clients/httpcrawler/httpcrawler.go:229-280 | if one of the limits is below the largest int32, every queued key has a URL that a chain of at most the maximum depth of eligible links leads to from a seed |
| `CrawlCoverage.AnsweredLinksVisited` | common/clients/httpcrawler/httpcrawler.go:229-280 | when a crawl returns, whatever failed otherwise, every eligible link of every page that answered is visited |
| `CrawlCoverage.QueuedIsAnswered` | common/clients/httpcrawler/httpcrawler.go:153-248 | when a crawl without failures returns, every queued key belongs to a page that answered, and every seed key to one that answered at depth zero |
| `CrawlCoverage.ChainVisited` | common/clients/httpcrawler/httpcrawler.go:117-280 | where depths drop no link, every page an eligible chain from a seed leads to is visited |
| `CrawlCoverage.LostRun` | common/clients/httpcrawler/httpcrawler.go:250-278 | for every maximum depth from two to below the largest int32, a run without failures that misses a page two eligible links away from a seed |
| `CrawlCoverage.AlwaysCoversIff` | common/clients/httpcrawler/httpcrawler.go:117-280 | all crawls without failures visit every key within the maximum depth iff that depth is at most one or the largest int32 |
| `MetricSeries.BuildSeriesKey` | core/metrics/series.go:81-97 | the loop writes the length-prefixed key |
| `MetricSeries.FieldRoundTrip` | core/metrics/series.go:93-97 | a length-prefixed field followed by anything is read back exactly |
| `MetricSeries.SeriesKeyInjective` | core/metrics/series.go:81-91 | two keys are equal iff name and labels are, for arbitrary bytes |
| `MetricSeries.KeyExample` | core/metrics/series.go:80-97 | what the key of a series with one label looks like, byte by byte |
| `MetricSeries.CompareSeries` | core/metrics/series.go:62-79 | the loop computes the lexicographic comparison |
| `MetricSeries.SeriesOrder` | core/metrics/series.go:62-79 | a strict total order; ties are exactly equal identities |
| `MetricOrder.BeforeMeans` | core/metrics/series.go:62-78 | one series comes before another iff its name is smaller, or the names agree and its labels are a proper prefix, or smaller by key, else value, at the first label that differs; bytes ascend, prefixes first |
| `MetricSeries.OrderUnique` | core/metrics/collector.go:128-140 | given series can be put in order in one way only, so map order and an unstable sort do not show |
| `MetricLabels.NormalizedIsCanonical` | core/metrics/metric.go:73-97 | declared keys only, strictly increasing, the first value given for each |
| `MetricLabels.Normalize` | core/metrics/metric.go:76-97 | the loop and the sort compute that canonical list |
| `MetricLabels.SameSeriesIff` | core/metrics/metric.go:73-107 | two argument lists normalize alike iff they agree on the first value of every declared key, after cleaning |
| `MetricLabels.PermutationFindsSeries` | core/metrics/collector.go:146-168 | labels with distinct keys normalize alike in any order |
| `MetricLog.TotalIsSum` | core/metrics/collector.go:84 | a counter is the 64-bit sum of what was added |
| `MetricLog.StatsMeaning` | core/metrics/series.go:33-44 | the summary holds count, sum and attained extremes of the samples |
| `MetricLog.ArrivedMembers` | core/metrics/collector.go:104-126 | the arrival order lists each series observed once |
| `MetricLog.FirstAreKept` | core/metrics/collector.go:99-126 | the series kept of a metric are the first to arrive, as many as a positive cap admits and all without one |
| `MetricLog.DroppedIsOutside` | core/metrics/collector.go:110-120 | each series is all or nothing: the dropped count is the number of observations of all series beyond the first cap |
| `MetricCollectors.RecordAgrees` | core/metrics/collector.go:75-126 | one more observation keeps the index in agreement with the log |
| `MetricCollectors.RefinesLog` | core/metrics/collector.go:75-126 | for any observations and any cap the index holds exactly the first cap series, each with the fold of all its observations, and counts the rest |
| `MetricCollectors.Series.Observe` | core/metrics/series.go:33-44 | folds one sample in place |
| `MetricCollectors.Collector.constructor` | core/metrics/collector.go:59-73 | an empty collector with a cap of 200, or the one given |
| `MetricCollectors.Collector.LookupOrCreate` | core/metrics/collector.go:99-126 | finds, files or drops; other series objects are untouched |
| `MetricCollectors.Collector.Add` | core/metrics/collector.go:75-85 | the collector is again what recording the log, extended by this observation, leaves |
| `MetricCollectors.Collector.Observe` | core/metrics/collector.go:87-97 | the same for a sample |
| `MetricCollectors.Collector.Value` | core/metrics/collector.go:142-155 | the 64-bit sum of everything added to the series if it was kept, else zero |
| `MetricCollectors.Collector.GetStats` | core/metrics/collector.go:157-169 | the fold of all samples, and whether the series was kept |
| `MetricCollectors.Collector.DroppedObservations` | core/metrics/collector.go:171-177 | the number of observations of the series that are not kept, in 64 bits |
| `MetricCollectors.Collector.CollectAll` | core/metrics/collector.go:134-137 | every kept series once, in whatever order the map is iterated |
| `MetricCollectors.Collector.AllSeries` | core/metrics/collector.go:128-140 | every kept series once, in ascending order of name and labels, said position by position |
| `MetricRecording.CounterAdd` | core/metrics/counter.go:46-59 | a negative delta leaves no trace; any other is recorded under the normalized labels |
| `MetricRecording.DistributionObserve` | core/metrics/distribution.go:45-49 | a sample is recorded under the normalized labels |
| `MetricRecording.CounterValue` | core/metrics/collector.go:146-155 | the total of the series the labels normalize to |
| `MetricRecording.LookupFindsRecording` | core/metrics/collector.go:104-155 | two label lists reach one series iff the metric is the same and they agree on its declared keys |
| `HashClaims.StripMeaning` | plugins/fingerprint/webidentity/hash/registry.go:132-136 | what is left is everything before the first query or fragment mark |
| `HashClaims.ClaimMeans` | plugins/fingerprint/webidentity/hash/registry.go:107-157 | one more claim keeps an entry equal to its claims |
| `HashClaims.TableMeans` | plugins/fingerprint/webidentity/hash/registry.go:107-157 | a tombstone iff two softwares claimed the hash; else the sole claimant's paths and versions, each once, in order |
| `HashLoading.RegistryMeans` | plugins/fingerprint/webidentity/hash/registry.go:40-69 | after any loads, empty paths included, the registry equals the claims in force |
| `HashOrder.LoadSummarized` | plugins/fingerprint/webidentity/hash/registry.go:45-69 | what one file does to the knowledge of one hash depends on that knowledge alone |
| `HashOrder.OrderMattersIff` | plugins/fingerprint/webidentity/hash/registry.go:52-66 | two files load alike in both orders iff whenever one skips versions of a new hash that the other registers, both name one software and the skipped versions are among the other's |
| `HashOrder.OrderMattersExample` | plugins/fingerprint/webidentity/hash/registry.go:52-66 | two files whose order matters |
| `HashOrder.FilesSummarized` | plugins/fingerprint/webidentity/hash/registry.go:45-69 | without empty paths an entry is a function of the set of files |
| `HashOrder.OrderIndependent` | plugins/fingerprint/webidentity/hash/registry.go:45-69 | without empty paths any order and repetition of loads gives the same knowledge |
| `HashRegistries.RootsForMeaning` | plugins/fingerprint/webidentity/hash/registry.go:88-93 | a root is inferred iff it completes to the path with a registered path |
| `HashRegistries.RootsInOrder` | plugins/fingerprint/webidentity/hash/registry.go:88-93 | the roots stand in the order of the registered paths they go with, one each |
| `HashRegistries.FindMeans` | plugins/fingerprint/webidentity/hash/registry.go:76-105 | after any loads a hash is found iff one software alone claimed it and its paths, if any, fit; with that software, its versions and exactly those roots, in the order their paths were first claimed |
| `HashRegistries.Registry.Count` | plugins/fingerprint/webidentity/hash/registry.go:71-74 | the number of hashes, tombstones included |
| `HashRegistries.Registry.AddSoftware` | plugins/fingerprint/webidentity/hash/registry.go:138-157 | a new hash gets an identity, a conflict a tombstone that stays |
| `HashRegistries.Registry.AddPath` | plugins/fingerprint/webidentity/hash/registry.go:121-130 | applies one path claim; identities of other hashes are untouched |
| `HashRegistries.Registry.AddVersions` | plugins/fingerprint/webidentity/hash/registry.go:107-119 | applies one version claim |
| `HashRegistries.Registry.LoadContent` | plugins/fingerprint/webidentity/hash/registry.go:48-58 | one content entry: its path claims, or its hashes when the path is empty |
| `HashRegistries.Registry.LoadVersions` | plugins/fingerprint/webidentity/hash/registry.go:60-66 | the version claims but for unknown hashes listed on empty paths |
| `HashRegistries.Registry.Load` | plugins/fingerprint/webidentity/hash/registry.go:40-69 | the new table is the file's claims applied to the old one |
| `HashRegistries.Registry.Find` | plugins/fingerprint/webidentity/hash/registry.go:76-105 | the answer of the registry's value; nothing for unknown hashes, tombstones and paths that do not fit |
| `TemplatedEngine.ValidateAction` | common/templatedengine/templated.go:88-98 | accepted iff it has a runner and all its cleanups are known; which error otherwise |
| `TemplatedEngine.ValidateWorkflow` | common/templatedengine/templated.go:100-114 | accepted iff all actions are known and phases never go down |
| `TemplatedEngine.Validate` | common/templatedengine/templated.go:86-117 | accepts exactly the well-formed plugins |
| `TemplatedEngine.New` | common/templatedengine/templated.go:66-84 | the cache of actions, and validation of the plugin against it |
| `TemplatedEngine.RunActions` | common/templatedengine/templated.go:259-284 | the action loop and the cleanup lists it defers, on each way out |
| `TemplatedEngine.RunWorkflowForService` | common/templatedengine/templated.go:239-296 | outcome, environment, actions and cleanups of a run |
| `TemplatedEngine.RunAllDeferred` | common/templatedengine/templated.go:275-283 | deferred functions run last first, each in the environment the one before left |
| `TemplatedEngine.RunDeferredList` | common/templatedengine/templated.go:275-283 | one cleanup list in order, broken off at the first failure |
| `TemplatedEngine.DetectForPhase` | common/templatedengine/templated.go:182-199 | the first workflow that meets its conditions runs; an error iff there is none |
| `TemplatedEngine.Detect` | common/templatedengine/templated.go:151-172 | what is said of the first workflow that meets its conditions: a finding, no finding for a failed action or none such, and every other error; no finding if there is no such workflow |
| `TemplatedTheorems.KnownActionsLast` | common/templatedengine/templated.go:68-71 | each name stands for the last action declared under it |
| `TemplatedTheorems.PhaseSlice` | common/templatedengine/templated.go:259-295 | a run executes exactly the target phase's actions in order up to the first failure, and reports iff all succeed and none of a later phase follows |
| `TemplatedTheorems.DetectionSlice` | common/templatedengine/templated.go:119-124 | an action belongs to the phase it declares, and to detection if it declares none |
| `TemplatedRuns.RunIsTold` | common/templatedengine/templated.go:223-306 | in every run one environment goes through all actions and then all cleanups; each step succeeds, fails or errs exactly as the declared action, the service and the runner's answer say |
| `TemplatedTheorems.WorkflowIsItsSlices` | common/templatedengine/templated.go:100-124 | a validated workflow is the concatenation of its phases in ascending order |
| `TemplatedTheorems.PhaseRunIsSliceRun` | common/templatedengine/templated.go:259-268 | a filtered run does the work of an unfiltered run over its slice |
| `TemplatedTheorems.SeparateRunsExecuteAll` | common/templatedengine/templated.go:182-199 | when all succeed, the run with an undefined target executes what the separate runs of the phases execute in ascending order, whatever environments they start in |
| `TemplatedTheorems.SeparateRunsComposeIff` | common/templatedengine/templated.go:239-296 | separate runs, each from an unrelated environment and cleaning up after itself, add up in actions and outcome to the full run for all workflows and environments iff no action's success depends on the environment |
| `TemplatedSeparation.SeparateFromOneIff` | common/templatedengine/templated.go:182-296 | separate runs that start where the full run starts add up to it for all workflows and environments iff no list of actions of a later phase can tell what a successful action did to the environment |
| `TemplatedSeparation.SeparateFromOne` | common/templatedengine/templated.go:239-296 | without such a leak, separate runs from one environment do what one run over the phases does, up to and including the first failure |
| `TemplatedTheorems.SeparateRunsDoNotCompose` | plugins/detectors/templatedweakcredentials/handler.go:46-104 | a valid plugin that reports in one run and not in separate runs of its phases |
| `TemplatedTheorems.CleanupDiscipline` | common/templatedengine/templated.go:259-306 | on every way out exactly the succeeded actions' cleanup lists run, once each, in reverse order, each up to its first failure, and the outcome is unchanged |
| `TemplatedTheorems.NeverUnknown` | common/templatedengine/templated.go:86-117 | after validation no action of a run or cleanup is unknown or without a runner |
| `TemplatedTheorems.FindingIff` | common/templatedengine/templated.go:151-180 | with a validated plugin: a finding iff every action was executed and succeeded, no finding iff the last one failed, an error iff a runner returned it |
| `Cidr.ExpandCIDR` | core/net/iputils/cidr.go:67-83 | both errors exactly, too large meaning more than 20 free bits; else all and only the addresses of the range, strictly ascending, as many as CountCIDR says |
| `Cidr.NthContained` | core/net/iputils/cidr.go:76-80 | the loop's successor stays in the masked range exactly until the last address, also at the top of a family |
| `Cidr.ShiftIsExactIff` | core/net/iputils/cidr.go:29-30 | the 64-bit shift is exact iff there are at most 62 host bits; its value beyond |
| `Cidr.CountIsCardinality` | core/net/iputils/cidr.go:85-95 | the count is the number of addresses the prefix contains, for every accepted range; an error for all others |
| `Cidr.LastAddress` | core/net/iputils/cidr.go:78-80 | the range that ends the IPv4 space contains its last address, which has no successor |

## Left out

- WorkerPools.WorkerPool.RunWorker: other workers act only while this one waits for the limiter; every interleaving is in the protocol.
- WorkerPoolScan.TestCredentialsAlone: one worker only, for the same reason.
- WorkerPoolTheorems.BudgetAccounting: attempts are unbounded integers, which differs from 32 bits only past 2147483647 attempts without a budget.
- WorkerPoolTheorems.ReportedUsers: needs a service that answers consistently; the other theorems allow any answers.
- CrawlRuns.CrawlRun.QueueForCrawl: one call without interference; the interleavings are in the crawl protocol.
- CrawlTheorems.QueuedAtMost: a negative concurrency is unlimited and has no such bound.
- CrawlTermination.Terminates: the number of links of a page is bounded by a parameter.
- CrawlCoverage.AlwaysCoversIff: for sites on which URLs of one key have the same links and are in scope or excluded together.
- CrawlTermination.Progress: says some step is possible, not that the Go scheduler takes it.
- CrawlRequests.CountIsRequestsIff: for crawls that return without error; others report no count.
- CrawlReach.QueuedIsReached: the converse is false in general; CrawlCoverage says when it holds in crawls without failures.
- CrawlRequests.CountIsRightIff: how many requests a URL takes is fixed for a crawl, though a server may redirect differently each time.
- MetricLog.StatsMeaning: samples are reals, so neither rounding nor NaN; counts are unbounded.
- MetricRecording.LookupFindsRecording: needs metric names to be unique, which the catalog enforces when metrics are declared.
- HashOrder.OrderIndependent: knowledge up to the order of path and version lists, which does follow load order.
- Cidr.ExpandCIDR: addresses are a family and a number, and a prefix is parsed already; their text form is not modelled.
- Requests, files, SSH, DNS and other I/O, the wall clock, logging, flags, configuration merging and protobuf builders.
- Loading wordlists from files (`UsersFromFS`, `PasswordsFromFS`, `LoadFromFS`, `LoadDefaultsOnce`): they call the store operations modelled here line by line.
- What fails before a crawl starts: a missing callback, scopes that do not load, a client that cannot be built.
- Closing of workers, the fingerprinting call before a brute force and the building of its report.
- The watcher's polling interval: a poll that sees work is no step.
- The sharing of backing arrays between Go slices: lists are values, so `Copy` and the returned versions cannot be changed from outside.
- The library's sorts are modelled by insertion; `Sorting.OrderedOnce` shows that any sort gives the same result.
- HTML parsing, scope and exclusion patterns, murmur3 and `sanitizeValue` are arbitrary functions; idempotence of the key of a URL is not claimed.
- Substitution of variables in the templated environment, extra variables and the actions' own behaviour: the environment and the runner are parameters.
- Simple quota counters, the agent and judge prompts, storage and entry points would only add easy members.
