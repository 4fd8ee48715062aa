# Verified model of the DZT proxy

DZT puts a verifying proxy between AI agents and an MCP tool server. An agent signs a
short-lived JWT for one tool call. The proxy checks the signature, audience, lifetime,
tool binding, replay nonce, rate limit, policy and tool-spec hash, and only then sends
the call upstream, to the secured MCP server with the same token or to GitHub without it.
The secured server checks the token again, with a nonce table of its own.

This project models that pipeline as a concurrent step machine together with the stores
it drives, and proves what holds in every run: any number of requests in flight, any
interleaving, any pattern of cleanups, and restarts at any time.

    dafny verify dfyconfig.toml

## How the model is built

Each stateful component exists twice. A *specification* on values says what one operation
does to the state, and a *class* has the source's fields and loops, each method proved
equal to that specification. Theorems are about sequences of operations of the
specification, so they hold of the class.

| file | models |
|---|---|
| `NonceStore`, `NonceHistory` | the lazily purged nonce table; its agreement with the set of all jtis ever admitted |
| `RateLimiter`, `RateHistory`, `RateRefinement` | the per-DID sliding window; the admission bound; refinement of "count the whole history", isolation and recovery with two clock readings per call |
| `Json`, `JsonPrinting`, `JsonCanonical`, `JsonReading` | sorted-key compact JSON; unique readability; the spec hash; a reader of its own for the texts |
| `Tokens`, `DidResolver`, `Policy`, `PolicyUnicode`, `ToolRegistry` | JWT claims and header, key lookup, authorization, the echo filter on all of Unicode, tool-spec cache |
| `Pipeline` | the secure-mode handler as a machine; each step runs from one await to the next |
| `ProxyApp` | the handler as an object with guards and early returns, each method proved to take its step of `Pipeline` |
| `PipelineInvariant`, `PipelineSteps` | the invariant and its preservation by every step |
| `PipelineSafety`, `PipelineRate`, `PipelineProgress`, `PipelineStages`, `PipelineFreshness` | mediation, replay, accounting and key cache; verdicts and bounds of the limiter; no false positives; reported stages and what a denial leaves behind; content and age of spec maps |
| `PipelineRuns`, `PipelineGap`, `PipelineRestarts` | runs built request by request, and the bounds that they show to be exact: the tolerated wait, the rate across restarts |
| `Server`, `System`, `ServerGap` | the secured server, and proxy plus server with traffic that may bypass the proxy |
| `Percentile` | the interpolation of the latency benchmark |

A history (`log`) records what happened; no step reads it. Clock readings are parameters
of the steps, as nonnegative reals, and never go backwards within a process or across
restarts. Two readings of one request are two parameters: a request verifies its token at
`tVerify` and checks its nonce at `tCheck`. Signature, encoding and SHA-256 are the fields
of `Crypto`: fixed but arbitrary functions; that two keys are a pair is a premise of the
lemmas that sign. A verified token satisfies `iat <= now < exp` with no
leeway (sections 4.1.4 and 4.1.6 of RFC 7519), has the expected audience, and has every
claim that `verify_token` requires.

## Where code and documentation part

- **Replay protection.** `nonce_store.py` calls a purged row one whose "token can no longer
  be replayed". The purge compares expiry with the clock at check time, while the token
  was verified earlier, across an await. At-most-once holds exactly for waits of at most
  one second (`PipelineGap.ToleratedGap`, and `ServerGap.ToleratedGap` for the server).
- **Rate limit.** "200 requests per 60 seconds" presumes that no clock reading runs ahead of
  a later comparison. The call and the cleanup read the clock separately; with a skew of `d` seconds
  exactly the windows of up to 60 - `d` seconds are protected (`RateHistory.ProtectedWindow`, and
  `PipelineRestarts.WindowExactly` in the running pipeline). The
  lists are in memory, so each life of the process has its own 200 (`PipelineRestarts.LimitWithRestarts`).
- **Two readings per call.** When a cleanup runs, its later reading decides how far back the minute
  goes (`RateRefinement.RefinesFullHistory`). As the cleanup's timing is shared, another DID's call can
  turn a decision (`RateRefinement.NeighbourMatters`), and a denied DID can be back before its oldest timestamp + 60 by
  its own reading (`RateRefinement.EarlyRecovery`). Isolation and recovery hold in all runs exactly if the cleanup
  never reads the clock later than its call (`RateRefinement.IsolationExactly`,
  `RateRefinement.RecoveryExactly`); for a single run
  the exact conditions are `OthersDoNotMatter` and `RecoversExactly`.
- **Remote specs.** The GitHub-mode cache has no age limit (`PipelineFreshness.FreshExactly`). A failed
  fetch fills it with an empty map, which counts as filled. If no other fetch is under way it stays so
  until a restart (`PipelineFreshness.SettledExactly`), and every map is the local one: `get_me` is
  compared with the local stub, and a token with the hash of upstream's spec is turned away
  (`PipelineFreshness.AnswerDecides`). With another fetch under way the cache can still be filled
  (`PipelineFreshness.OverlapRun`). Tools without a local stub are not affected, because policy never
  grants them (`PipelineFreshness.OnlyLocalTools`).
- **Success.** A call can go upstream and its client still get a server error, when the reply is an
  error, late or unreadable (`PipelineStages.CrashAfterForward`). What a reported outcome says about upstream
  is `PipelineStages.OutcomeTellsUpstream`.
- **DID documents.** The code appends `/.well-known/did.json` also after a path, where the
  "Read (Resolve)" section of the did:web Method Specification says `/did.json`
  (`DidResolver.PathDeparts`). The two agree exactly on identifiers without a path
  (`DidResolver.FollowsMethodExactly`). The model follows the code. A slash inside a segment collides with a segment boundary
  (`DidResolver.SlashCollides`).
- **Spec hash.** Two separate surrogate halves print like the one character they encode, so
  injectivity needs strings without such halves (`JsonCanonical.SplitSurrogatesCollide`); what the
  form tells apart otherwise is `JsonCanonical.CanonicalFormIsExact`.
- **Percentile.** With one sample, or at p = 100, both interpolation weights are zero, and the
  result is 0 whatever the samples are (`Percentile.ZeroOutside`).
- `invalidate_cache` says that it clears the remote cache; it clears both.

## Model

| member | source | states |
|---|---|---|
| PipelineSafety.CompleteMediation | dzt_proxy/app.py:203-308 | Whatever the interleaving, a forwarded call was preceded, in the same request, by its arrival with this token, tool and parameters, a check that the token is signed under the first key of a document resolved for its issuer, addressed to the server and alive, a passed nonce check, a rate admission of that issuer, a `tool` claim equal to the forwarded tool, policy consent to exactly the forwarded parameters, and the return of a map, current at that point, in which the tool's spec has the token's hash |
| PipelineSafety.ForwardedAsArrived | dzt_proxy/app.py:246-308 | In every run a forwarded call has exactly one arrival with its number and carries that arrival's token and tool and the very value that its body had as "params", or {} where that was missing or falsy |
| PipelineSafety.NonceReuse | dzt_proxy/app.py:263-269 | Two requests pass the replay check with one jti only if the first one's `exp` lies below floor of the second one's check time, over every run with restarts |
| PipelineSafety.AtMostOnce | dzt_proxy/app.py:228-269 | If no request waits more than a second between verifying and checking, no token is ever forwarded twice |
| PipelineGap.ToleratedGap | dzt_proxy/nonce_store.py:34-48 | One second is exact: a bound on the wait guarantees one forward per token in every deployment and run if and only if it is at most 1.0 |
| PipelineGap.ReplayRun | dzt_proxy/nonce_store.py:43 | For every longer wait, a concrete possible run forwards one token twice |
| PipelineRate.RateBound | dzt_proxy/app.py:271-275 | Over every whole run, in any half-open window of 60 - d seconds a DID gets at most 200 requests past the limiter for each life of the process that admits it there, d bounding how much later the cleanup reads the clock than the call; there is one such life more than restarts that separate its admissions |
| PipelineRestarts.LimitWithRestarts | dzt_proxy/rate_limiter.py:21-24 | That count is exact: with up to k restarts and lag at most d, a limit for windows of up to 60 - d seconds holds in every deployment and run if and only if it is at least 200 (k + 1) |
| PipelineRestarts.WindowExactly | dzt_proxy/rate_limiter.py:27-66 | So is the window, in the running pipeline: without restarts and with lag at most d, windows of length w never hold more than 200 if and only if w is at most 60 - d |
| PipelineRestarts.LagRun | dzt_proxy/rate_limiter.py:30-34 | For every lag d and longer window, a possible run of the pipeline with 201 admissions in it |
| PipelineRestarts.EveryLifeAdmits | dzt_proxy/app.py:49-54 | For every k, a possible run with k restarts in which one DID gets 200 (k + 1) requests past the limiter in one instant |
| PipelineRate.VerdictsCountHistory | dzt_proxy/app.py:272-275 | Every recorded verdict is "fewer than 200 admissions of this DID, since the process started, in the minute before" the call's own reading, or the cleanup's if one runs; a denied call has exactly 200 |
| PipelineSafety.Accounting | dzt_proxy/app.py:262-275 | Every rate check is paid for by a passed nonce check of the same request on a verified token of the charged DID, no nonce pays twice, and the limiter's lists hold nothing but admissions |
| PipelineSafety.SpecFreshness | dzt_proxy/tool_registry.py:111-125 | In local mode, every map that a fetch returns, however fetches overlap, is one that upstream served later than 30 seconds before that fetch began |
| PipelineFreshness.FreshExactly | dzt_proxy/tool_registry.py:111-144 | An age bound b on returned maps holds in all runs of a deployment if and only if it is local and b is at least 30, or no GitHub token is set and every map is the constant one; in GitHub mode with a token no age is ever too old |
| PipelineFreshness.ConstantWithoutToken | dzt_proxy/tool_registry.py:127-144 | Without a GitHub token every map returned in any run is the local one |
| PipelineFreshness.MapIsOverlay | dzt_proxy/tool_registry.py:127-144 | In GitHub mode with a token every map returned in any run has exactly the local tools and those of upstream's latest answer since the start of the process, with upstream's spec for each tool that it named and the local one for the others; it is the local map if and only if that answer failed, was empty or only repeated local specs |
| PipelineFreshness.AnswerSettles | dzt_proxy/tool_registry.py:130-142 | In GitHub mode with a token an answer with no other fetch under way leaves exactly its specs in the cache, a failed one an empty map that counts as filled |
| PipelineFreshness.SettledExactly | dzt_proxy/tool_registry.py:130-142 | The remote cache keeps a map, the empty one left by a failure included, in all restart-free continuations if and only if it holds that map and no fetch is under way |
| PipelineFreshness.SettledLasts | dzt_proxy/tool_registry.py:127-144 | From then on, in every run without a restart, every returned map is that one over the local specs |
| PipelineFreshness.SettledIsCompared | dzt_proxy/app.py:288-300 | A call that then fetches passes the comparison if and only if its token carries the hash of the cached spec of its tool, or of the local stub where the cache has none, whatever upstream would serve by then |
| PipelineFreshness.AnswerDecides | dzt_proxy/app.py:288-308 | Of the requests that arrive later and before a restart, only those are forwarded whose token carries the hash of upstream's spec, for a tool that the answer named, or of the local stub, for any other; after a failure that is the stub for every tool |
| PipelineFreshness.SettledRun | dzt_proxy/tool_registry.py:132-140 | One listing leads from a fresh start into that state, for every answer of upstream and for its failure |
| PipelineFreshness.OverlapRun | dzt_proxy/tool_registry.py:132-140 | The same failure with a second fetch under way leaves the cache empty but not for good |
| PipelineFreshness.OnlyLocalTools | dzt_proxy/policy.py:58-109 | In every reachable state, in any mode, a call at or past the start of its hash lookup is of `echo`, `read_file` or `get_me`, so of a tool with a local stub |
| PipelineSafety.ForwardedSpecIsSigned | dzt_proxy/app.py:284-300 | In every run, a forwarded call whose token carries the hash of spec X was compared with a returned spec of the same canonical form as X, or the two forms are a collision of the digest |
| PipelineSafety.KeyCacheCoherence | dzt_proxy/did_resolver.py:95-110 | Every cached key of a DID is the first key of a document resolved for that very DID, and every accepted token is signed under such a key of its own issuer, has all required claims, and was alive and addressed to the server |
| PipelineSteps.StepKeeps | dzt_proxy/app.py:203-314 | The invariant linking history, stores, caches and suspended requests is kept by every step of every request and by a restart |
| PipelineSteps.RunKeeps | dzt_proxy/app.py:177-314 | The invariant holds in every reachable state |
| PipelineProgress.NoFalsePositives | dzt_proxy/app.py:203-314 | A request in order, whose token is alive when verified, jti unused, DID below the limit and tool hash current, is never denied whatever other requests do; until it is done it can go on, after at most seven steps of its own, with upstream answering, it has succeeded and been forwarded with the requested tool, the client's token and the very parameters of its body, {} where they are missing or falsy |
| PipelineProgress.CanGoOn | dzt_proxy/app.py:178-314 | No state of the stores or of other requests blocks a request that is not done: its next step is possible |
| PipelineProgress.SignedRequestIsForwarded | dzt_proxy/jwt_utils.py:25-64 | From `sign_token` to the forward: a request with a token signed under its agent's key pair, for a tool and parameters that policy allows, ends forwarded with that token and exactly its body's tool and parameters if it is welcome at each step |
| PipelineProgress.FreshPasses | dzt_proxy/app.py:266-267 | A jti that no request has passed with is never reported as a replay |
| PipelineProgress.RoomPasses | dzt_proxy/rate_limiter.py:51-66 | Fewer than 200 admissions of the DID in the last minute of the run's history suffice for admission, even with a separate cleanup reading |
| PipelineProgress.SignedRequestIsInOrder | dzt_proxy/jwt_utils.py:25-50 | What `sign_token` issues under a DID's key pair is in order when policy consents, and is alive exactly from the mint second to mint second + ttl |
| PipelineStages.DenialsLeaveTheirTrace | dzt_proxy/app.py:205-300 | In every reachable state a denied request was never forwarded and has left exactly its stage's trace: no nonce check before the replay stage, there a refused one and no rate charge, at the rate limit a recorded nonce and a refused admission, later both recorded |
| PipelineStages.OutcomeTellsUpstream | dzt_proxy/app.py:307-314 | A finished request reports success if and only if an error-free reply arrived for it, and then its call went upstream; a denied one sent nothing; one whose call went upstream ends in success or, with any other reply, in a server error |
| PipelineStages.CrashAfterForward | dzt_proxy/app.py:119-127 | A possible run in which the call goes upstream and the client is told of a failure |
| PipelineStages.StageIsFirstFailure | dzt_proxy/app.py:246-286 | The outcome is that of the first failing check in documented order, a rule that raises included; before the jti is accepted no row is written and the limiter is not charged, after that the jti is recorded |
| PipelineStages.UnreadableBodyCrashes | dzt_proxy/app.py:245 | A body that is no JSON object ends a verified request in a server error with nothing touched |
| PipelineStages.FailedFetchCrashes | dzt_proxy/tool_registry.py:119-121 | In local mode a failed fetch of the specs ends the request in a server error and leaves the cache as it was |
| PipelineStages.EarlyStageIsFirstFailure | dzt_proxy/app.py:205-242 | From header to signature, with no other request in between, cached key or not, the reported stage is the first failing check; a request that passes is verified with its token's claims, and nonce table and limiter have not moved |
| PipelineStages.OnlyChecksTouchStores | dzt_proxy/app.py:205-242 | A request denied before the check stretch leaves nonce table and limiter as they were |
| ProxyApp.Proxy.BeginRequest | dzt_proxy/app.py:205-230 | Header, decode and cached-key path take the machine's first step |
| ProxyApp.Proxy.ResumeWithKey | dzt_proxy/app.py:223-242 | Resumption after the key lookup takes the machine's key step |
| ProxyApp.Proxy.CheckBody | dzt_proxy/app.py:245-286 | Binding, replay, rate, policy and hash presence run as one step of the machine |
| ProxyApp.Proxy.CheckReplayAndRest | dzt_proxy/app.py:262-275 | The nonce is looked up before it is stored and stored before the rate check, in the machine's order |
| ProxyApp.Proxy.CheckRateAndRest | dzt_proxy/app.py:271-286 | Rate, policy and hash presence as the machine has them, each denial with its stage |
| ProxyApp.Proxy.BeginFetchSpecs | dzt_proxy/app.py:288-289 | Start of the hash lookup takes the machine's fetch step |
| ProxyApp.Proxy.EndFetchSpecs | dzt_proxy/tool_registry.py:118-156 | Upstream's answer is cached and compared as in the machine's answer step |
| ProxyApp.Proxy.CompareHash | dzt_proxy/app.py:288-300 | An unknown tool and a differing hash are both denied at tool integrity |
| ProxyApp.Proxy.ForwardUpstream | dzt_proxy/app.py:166-172 | The local server gets tool, parameters and token, GitHub, for any other mode string, tool and parameters only, and nobody anything without a GitHub token; a forward is recorded exactly when something is sent, and the request then waits |
| ProxyApp.Proxy.ReceiveReply | dzt_proxy/app.py:307-314 | The reply ends the request: a result in success, an exception of the upstream call in a server error |
| ProxyApp.Proxy.Startup | dzt_proxy/app.py:49-54 | A new process over the same database is the machine's restart step: rows stay, requests, limiter, resolver and spec caches and the cleanup time are gone |
| NonceHistory.TableIsUnpurgedHistory | dzt_proxy/nonce_store.py:34-72 | A row is in the table if and only if some accepted admission wrote it and no purge since then passed its expiry |
| NonceHistory.SeenWasAdmitted | dzt_proxy/nonce_store.py:51-58 | `seen_before` is true only of a jti that was admitted earlier |
| NonceHistory.UnexpiredIsSeen | dzt_proxy/nonce_store.py:34-58 | `seen_before` is true of every admitted jti whose recorded expiry is at least floor(now), however cleanups and restarts fall |
| NonceHistory.ReadmissionIsPastExpiry | dzt_proxy/nonce_store.py:34-72 | A jti is admitted again only after its first recorded expiry lies below floor(now) |
| NonceHistory.ReadmissionNeedsPurge | dzt_proxy/nonce_store.py:43 | Between two admissions of one jti, a purge passed the first one's expiry |
| NonceHistory.ForgottenExactly | dzt_proxy/nonce_store.py:34-58 | A jti's last admission is forgotten at `now` if and only if a purge has passed its expiry since, or the lookup's own cleanup is due and does |
| NonceHistory.AcceptedWritesItsRow | dzt_proxy/nonce_store.py:61-72 | Stored right after a false lookup, a nonce always gets its own row with its own expiry: INSERT OR IGNORE never ignores |
| NonceHistory.RetentionBound | dzt_proxy/nonce_store.py:16-17 | If no expiry is more than T seconds after its store, then right after any lookup at `now` each remaining row was stored later than now - (T + 61) |
| NonceStore.NonceTable.InitDb | dzt_proxy/nonce_store.py:20-31 | Opening the table keeps the rows on disk and forgets the last cleanup time |
| NonceStore.NonceTable.MaybeCleanup | dzt_proxy/nonce_store.py:34-48 | At most once a minute, exactly the rows with expiry below int(now) go |
| NonceStore.NonceTable.SeenBefore | dzt_proxy/nonce_store.py:51-58 | Cleans up, then answers whether the jti has a row |
| NonceStore.NonceTable.StoreNonce | dzt_proxy/nonce_store.py:61-72 | The first row of a jti stays; a missing expiry becomes int(now) + 600 |
| NonceHistory.CountIsAlive | dzt_proxy/nonce_store.py:75-82 | The number of rows is the number of accepted admissions that no purge has passed since, each jti counted once |
| RateHistory.WindowBound | dzt_proxy/rate_limiter.py:44-66 | If no reading runs ahead of a later comparison by more than d seconds, every half-open window of length 60 - d, wherever it starts, holds at most 200 admissions of a DID |
| RateHistory.ProtectedWindow | dzt_proxy/rate_limiter.py:27-66 | That length is exact: runs of skew d keep every window of length w within 200 if and only if w is at most 60 - d |
| RateHistory.OverfullWindow | dzt_proxy/rate_limiter.py:30-40 | For any longer window and wherever the clock starts, a concrete run of skew d admits 201 calls within it |
| RateHistory.ListCoversHistory | dzt_proxy/rate_limiter.py:36-59 | Above every cutoff used so far, the pruned list and the full history hold the same timestamps |
| RateHistory.ListBelowHistory | dzt_proxy/rate_limiter.py:36-59 | Whatever the readings, the pruned list never counts more than the full history |
| RateRefinement.RefinesFullHistory | dzt_proxy/rate_limiter.py:27-66 | With ordered readings, two per call, each decision is "fewer than 200 admissions of this DID in the whole history within the minute before" the call's reading, or the cleanup's if one runs |
| RateRefinement.NeverOverfull | dzt_proxy/rate_limiter.py:57-66 | No minute that ends at or after all readings so far holds more than 200 admissions of a DID |
| RateRefinement.UsageIsHistoryCount | dzt_proxy/rate_limiter.py:69-80 | `get_usage` reports the count of the same window of the whole history |
| RateRefinement.OthersDoNotMatter | dzt_proxy/rate_limiter.py:21-41 | Taking all other DIDs' calls out of a run with ordered readings changes no decision of a DID if and only if none of its calls is disputed: minute full at its own reading, not at the cleanup's, and cleanup moved by the others |
| RateRefinement.IsolationExactly | dzt_proxy/rate_limiter.py:27-56 | Decisions are independent of other DIDs in all runs of lag at most d if and only if d is not positive, that is if no cleanup reads the clock later than its call |
| RateRefinement.NeighbourMatters | dzt_proxy/rate_limiter.py:30-33 | For every lag up to 30 seconds and wherever the clock starts, a run in which a call is turned away only because another DID called |
| RateRefinement.ListIsPartOfHistory | dzt_proxy/rate_limiter.py:57-66 | A stored list holds only admitted timestamps, none more often than it was admitted: denied calls record nothing |
| RateRefinement.ListsAreBounded | dzt_proxy/rate_limiter.py:57-66 | No stored list ever exceeds 200 entries, whatever the readings |
| RateRefinement.ListsAscend | dzt_proxy/rate_limiter.py:57-66 | Stored lists stay in ascending order when calls' own readings do, whatever the cleanups read |
| RateRefinement.CleanupLeavesLiveEntries | dzt_proxy/rate_limiter.py:34-41 | A cleanup that runs keeps a DID if and only if it has a timestamp of the last minute, and then exactly those |
| RateRefinement.RecoversExactly | dzt_proxy/rate_limiter.py:27-66 | A denied DID with no admission in between is admitted again if and only if the reading that decides the retry is at or after its oldest counted timestamp + 60; always if its own reading is, never before the cleanup's is |
| RateRefinement.RecoveryExactly | dzt_proxy/rate_limiter.py:27-66 | The retry's own reading says in all runs of lag at most d when it is admitted, if and only if d is not positive |
| RateRefinement.EarlyRecovery | dzt_proxy/rate_limiter.py:30-37 | For every lag up to 30 seconds and wherever the clock starts, a run in which a denied DID is back before its oldest timestamp + 60 by its own reading |
| RateRefinement.DeniedWindowIsFull | dzt_proxy/rate_limiter.py:61-62 | With ordered readings a denial means exactly 200 admissions in the last minute, by the call's own reading and by the decisive one |
| RateLimiter.SlidingWindow.Cleanup | dzt_proxy/rate_limiter.py:27-41 | At most every two minutes, all lists are pruned and empty ones dropped |
| RateLimiter.SlidingWindow.PruneAll | dzt_proxy/rate_limiter.py:34-39 | The loop prunes every DID's list by the same cutoff and collects exactly the DIDs left without entries |
| RateLimiter.SlidingWindow.DropAll | dzt_proxy/rate_limiter.py:40-41 | Exactly the collected DIDs leave the dictionary |
| RateLimiter.SlidingWindow.CheckRateLimit | dzt_proxy/rate_limiter.py:44-66 | Below 200 live timestamps the call is recorded and allowed, otherwise the pruned list stays as it is |
| JsonPrinting.PrintUnique | dzt_proxy/tool_registry.py:73-76 | A compact printing followed by any delimiter tells where the value ends and, up to UTF-16 code units, which value it is; nesting, escapes and signs included |
| JsonPrinting.TextUnique | dzt_proxy/tool_registry.py:75 | A quoted, escaped string (section 7 of RFC 8259) determines its code units and its end |
| JsonPrinting.PrintsAlikeExactly | dzt_proxy/tool_registry.py:75 | Two values in stored order print alike if and only if they are equal up to code units |
| JsonCanonical.CanonKeepsMeaning | dzt_proxy/tool_registry.py:75 | Sorting keys keeps every key's value, at every depth, and leaves every object sorted |
| JsonReading.KeyOrderIsByCodePoint | dzt_proxy/tool_registry.py:75 | The order of `sort_keys` is by the first difference: after a common stretch the key that ends, or that has the smaller code point, comes first |
| JsonReading.PrintIsRead | dzt_proxy/tool_registry.py:75 | A reader defined by the grammar of RFC 8259 alone, which takes no whitespace and only the escapes that Python writes, reads every compact printing back to its value, strings as code units, and stops at its end |
| JsonReading.DumpsIsRead | dzt_proxy/tool_registry.py:73-76 | That reader reads the canonical text of every value as the sorted value |
| JsonReading.DumpsRoundTrip | dzt_proxy/tool_registry.py:73-76 | For values as JSON parsing yields them, reading the canonical text with surrogate pairs joined gives the value itself with the keys of every object, at every depth, in ascending order of code points and nothing else changed |
| JsonCanonical.CanonicalIsUnique | dzt_proxy/tool_registry.py:75 | Sorted values with the same meaning are the same value |
| JsonCanonical.CanonicalFormIsExact | dzt_proxy/tool_registry.py:73-76 | For all values, sorted-key compact printings are equal if and only if the sorted values agree up to UTF-16 code units; for values as JSON parsing yields them, that is if and only if they are equal up to key order |
| JsonCanonical.HashDetectsAnyChange | tests/test_tool_registry.py:31-46 | Whatever the digest, two specs have one hash if and only if they have the same canonical form, for parsed JSON equality up to key order, or their forms are a collision of the digest, never both: a changed spec with the old hash hands over a collision |
| JsonCanonical.SplitSurrogatesCollide | dzt_proxy/tool_registry.py:75 | Without the premise on surrogate halves the canonical form is ambiguous |
| ToolRegistry.Registry.BeginFetch | dzt_proxy/tool_registry.py:102-130 | A local map younger than 30 seconds is returned at once; GitHub mode lays the cached remote map over the local specs; how the maps relate to upstream's answers is `PipelineFreshness.MapIsOverlay` |
| ToolRegistry.Registry.EndFetch | dzt_proxy/tool_registry.py:118-144 | Contents and fetch start enter the cache together; a failed local fetch caches nothing, a failed remote one an empty map |
| ToolRegistry.Registry.InvalidateCache | dzt_proxy/tool_registry.py:159-165 | Both caches are empty afterwards |
| DidResolver.Resolver.ResolveLocal | dzt_proxy/did_resolver.py:57-69 | The first document read for a DID is the one returned from then on |
| DidResolver.Resolver.ResolveDid | dzt_proxy/did_resolver.py:85-92 | Known local DIDs with a file resolve locally, other did:web identifiers over the web, anything else fails |
| DidResolver.Resolver.FinishLookup | dzt_proxy/did_resolver.py:95-110 | The first verification method's key is returned and cached under the DID asked for; failures cache no key |
| DidResolver.LookupExactly | dzt_proxy/did_resolver.py:57-110 | A lookup yields a key if and only if it is the first key of the document offered: the known identity's file as first read, or for other did:web identifiers what the web has; both caches change at that DID only |
| DidResolver.UrlIsJoinedSegments | dzt_proxy/did_resolver.py:36-54 | For all did:web identifiers and any percent-decoding, the URL is the decoded segments joined by slashes, between fixed ends |
| DidResolver.SegmentsExactly | dzt_proxy/did_resolver.py:47-50 | The segments are the pieces of the identifier between its colons, each percent-decoded for itself |
| DidResolver.FollowsMethodExactly | dzt_proxy/did_resolver.py:52-54 | The URL is the one of the did:web Method Specification if and only if the identifier has no path |
| DidResolver.PathDeparts | dzt_proxy/did_resolver.py:41 | For `did:web:a:b` the two differ |
| DidResolver.SegmentsRoundTrip | dzt_proxy/did_resolver.py:47-54 | Where no decoded segment contains a slash, the URL converts back to the decoded segments |
| DidResolver.SharedUrlExactly | dzt_proxy/did_resolver.py:36-54 | For all did:web identifiers and any percent-decoding, two share a document URL if and only if their decoded segments, joined by slashes, agree |
| DidResolver.UrlTellsSegments | dzt_proxy/did_resolver.py:47-54 | Where no decoded segment contains a slash, two identifiers share a URL if and only if they have the same decoded segments |
| DidResolver.SplitUndoesJoin | dzt_proxy/did_resolver.py:48-53 | Segments without the separator are recovered from their join |
| DidResolver.SlashCollides | dzt_proxy/did_resolver.py:52-53 | Two different DIDs, one with a slash in a segment, share a URL |
| Tokens.SignVerifyRoundTrip | dzt_proxy/jwt_utils.py:25-64 | A signed token verifies to its own claims if and only if the audience is the expected one and the clock lies from the mint second up to, not including, mint second + ttl |
| Tokens.ClaimsAsSigned | dzt_proxy/jwt_utils.py:36-48 | Each claim of a signed token is the argument of its name, `iat` is the mint second and `exp` that second + ttl; an empty tool hash is left out |
| Tokens.VerifiesExactly | dzt_proxy/jwt_utils.py:53-64 | Verification yields the claims if and only if the signature checks, all six required claims are there, the audience is among the token's and `iat` <= now < `exp` |
| Tokens.HeaderRoundTrip | dzt_proxy/app.py:205-211 | The header sent upstream carries the very token parsed out of the client's header |
| Tokens.BearerExactly | dzt_proxy/app.py:205-211 | The handler's token is t if and only if the header is "Bearer ", whitespace, t and whitespace, with t not empty and without whitespace at either end |
| Policy.GrantsExactly | dzt_proxy/policy.py:58-119 | The whole grant table over all parameter values, as if-and-only-ifs: which agent, tool and parameters are allowed and which raise, all else being blocked; `run_cmd` is never granted |
| Policy.ReadFileExactly | dzt_proxy/policy.py:28-34 | `read_file` is allowed if and only if the first "path" of an object is a string equal to one of the three paths; it raises if and only if the parameters are truthy and no object, or that path is a list or an object |
| Policy.EchoExactly | dzt_proxy/policy.py:37-53 | `echo` is allowed if and only if the parameters are falsy, have no "message", or their first "message" is a string without a listed stretch; it raises if and only if they are truthy and no object, or that message is no string |
| Policy.ScanPatterns | dzt_proxy/policy.py:40-53 | The search loop answers whether any listed pattern occurs |
| Policy.RejectsExactly | dzt_proxy/policy.py:37-53 | A message is rejected if and only if some stretch of it is a listed pattern, ASCII case aside |
| Policy.CaseDoesNotMatter | dzt_proxy/policy.py:49-52 | Changing the case of ASCII letters never changes the verdict |
| Policy.ContextDoesNotHelp | dzt_proxy/policy.py:50-52 | A rejected message stays rejected inside any longer one |
| PolicyUnicode.UnicodeDoesNotMatter | dzt_proxy/policy.py:49-52 | On every message the filter decides with the whole of `str.lower`, context and characters that grow or become ASCII included, as it does with ASCII letters lowered |
| Server.SecuredServer.HandleCall | mcp_server/server.py:38-86 | The guard sequence takes the model's step and gives its verdict: a refusal with its cause, the execution of a dispatched tool, or the reply that the tool is unknown |
| Server.SecuredServer.Startup | mcp_server/nonce_store.py:11-25 | A restarted server keeps its rows and forgets its last cleanup |
| Server.AcceptedExactly | mcp_server/server.py:38-86 | In every state a call is answered with status 200 if and only if its parameters are an object, its bearer token is signed under the first key of the document given for its issuer, one of three local DIDs, has all required claims, is alive, addressed to the server and bound to the requested tool, and its jti is not empty and unused; which of the two answers depends on the tool alone |
| Server.RefusalIsFirstFailure | mcp_server/server.py:38-77 | A refusal names the first failing check in the documented order, and before the replay check nothing but the clock has moved |
| Server.CallKeeps | mcp_server/server.py:38-86 | Every call, accepted or not, keeps the server's table equal to what its history of checks makes of it |
| Server.ServerReuse | mcp_server/nonce_store.py:28-56 | The server accepts a jti again only past the first token's expiry |
| Server.ServerAtMostOnce | mcp_server/server.py:61-77 | With at most a second between its two readings, the server passes each token at most once |
| Server.ReplayHasCause | mcp_server/server.py:71-77 | A replay is reported only for a jti accepted earlier |
| System.OnlyEntitledCalls | mcp_server/server.py:38-77 | Over any mix of proxied and direct calls and restarts, every use of the server's table, accepted or replay, was by a token entitled in that way to the very tool asked for, at the reading of its verification |
| System.CheckedAsSent | dzt_proxy/app.py:112-127 | End to end: every proxied check at the server, in any run, is of a token, tool and parameters that some client sent to the proxy, {} where its parameters were missing or falsy |
| System.ExecutesAtMostOnce | mcp_server/server.py:61-77 | Over any mix of proxied and direct calls and restarts of either side, a token runs a tool at most once |
| ServerGap.ToleratedGap | mcp_server/nonce_store.py:28-37 | One second is exact for the server as well, over all deployments and traffic |
| System.NoSpuriousReplay | mcp_server/server.py:71-77 | If all traffic is proxied, the proxy has forwarded each token at most once and each jti belongs to one token, the server never mistakes a forwarded call for a replay |
| System.ShortWaitsSuffice | dzt_proxy/app.py:228-269 | The premise on forwards holds in every run in which no request of the proxy waits more than a second between its readings |
| System.ForwardedIsExecuted | dzt_proxy/app.py:112-127 | Under the same premises a forwarded call that reaches the server while its token is good there, under the first key of its issuer's document, is let through: `echo`, `read_file` and `run_cmd` are executed, any other tool answered as unknown, and only parameters that are no object stop the call before |
| System.SuccessWasLetThrough | dzt_proxy/app.py:308-314 | In local mode a client that is told of success had its call let through by the secured server, in a check of the forwarded token made for that very forward |
| System.RunKeeps | mcp_server/server.py:37-86 | In every run of proxy and server, each proxied check at the server is of a forwarded call, delivered once, with that call's token and tool, and every check is of an entitled token |
| Percentile.WithinSamplesExactly | eval/latency_benchmark.py:98-105 | For all samples the result lies within their range if and only if there are at least two and p is below 100, or the range contains 0 anyway |
| Percentile.ZeroOutside | eval/latency_benchmark.py:102-105 | With fewer than two samples, or at p = 100, the result is 0 |
| Percentile.LiesWithin | eval/latency_benchmark.py:98-105 | For at least two samples of any sign and p below 100 the result lies between minimum and maximum |
| Percentile.InterpolatesExactly | eval/latency_benchmark.py:101-105 | Where the p-th percentile falls at x of the way from the i-th to the next sample in ascending order, the result is the point at x between the two |
| Percentile.GrowsWithP | eval/latency_benchmark.py:102-105 | The result never falls as p grows, across segment boundaries |
| Percentile.OrderDoesNotMatter | eval/latency_benchmark.py:101 | Reordering the samples changes nothing |

## Left out

- PipelineSafety.AtMostOnce: presumes clock readings that never go backwards; a clock set back is not modelled.
- PipelineStages.EarlyStageIsFirstFailure: one stage stands for the four names that failed verifications report, because the choice among them reads the message text of the JWT library.
- PolicyUnicode.UnicodeDoesNotMatter: takes from Unicode that, besides ASCII letters, only the Kelvin sign and the dotted capital I have ASCII in their lowercase form.
- System.SuccessWasLetThrough: local mode only; what GitHub does with a call is outside the model.
- Upstream replies: their contents are not modelled, only whether one arrived without error; a connection that fails counts as a forward that is never delivered.
- Suspension: the machine may pause at every await, also where the event loop would go straight on, and lets any time pass there; its runs include the program's.
- Baseline mode, audit logging, debug and health endpoints: no checks to state anything about.
- The mapping of library exception texts to `token_expiry`, `audience_validation` and `signature_verification`: one verification stage stands for all four.
- SQLite, FastAPI, HTTP clients, file reading and environment variables: only the rows, map contents and forward events that they produce.
- ES256K, PEM parsing, SHA-256 and the JWT library's internals: abstract functions with the claim rules above; `nbf` and the `session` claim are not part of the claims.
- Floats and NaN in JSON, non-string `jti`, `tool` and `iss` claims, non-integer `exp`: not in the value types.
- A local DID document or a JSON body that cannot be read: a missing value, without the distinction of causes.
- Several worker processes over one database: the uninterrupted check stretch rests on one event loop.
- What a tool does once dispatched (mcp_server/tools.py).
- SSE parsing, benchmark drivers, report tables, shell menus and key generation: drivers and text output.
