# Verification of llm-gateway

A Dafny model of the parts of the gateway whose correctness is a statement about whole runs rather than
about one call: the Redis rate limiter, the middleware that reports token usage to it, the
authentication cache, the circuit breaker with its retry loop, the router and its strategies, and the
Anthropic stream translation. `dafny verify dfyconfig.toml` checks everything.

## How the model is laid out

| files | what they model |
|---|---|
| `Values`, `MemberCodec`, `SortedSets`, `WindowLog`, `Scripts` | shared values, request identifiers, the sorted-set commands, a log that deletes nothing, and the two Lua scripts |
| `LimiterRuns`, `LimiterBounds`, `LimiterRefinement`, `LimiterAdvice`, `LimiterSkew`, `LimiterOvershoot` | every run of check and record steps from any number of gateways against one API key |
| `Limiter`, `Middleware`, `CaptureWriter`, `WarnThrottle` | the Go side of the limiter, the order of calls per request, the response wrapper, and the fail-open warning |
| `KeyCache`, `KeyLookups` | the authentication cache, the key store and revocation, interleaved step by step |
| `Health`, `Retry` | the circuit breaker and the retry loops |
| `Strategies`, `Latency`, `Routing` | the ranking strategies, the latency poller, and one routed request |
| `AnthropicStream`, `StreamHealth` | replies of Anthropic, whole and streamed, and the stream behind the health tracker |

An object that the program updates in place is a class with the same fields (`Scripts.KeyWindows`,
`Limiter.RedisLimiter`, `CaptureWriter.UsageCaptureWriter`, `Health.ProviderHealth`,
`Strategies.RoundRobin`, `Latency.LatencyOptimized`, `Routing.Router`), loops are loops, and the health
filter overwrites the array it reads. Each method is tied to a function of the old state, and the
results below are about those functions. What several goroutines or gateways do at once is a run: a
sequence of atomic steps, each enabled where it happens, in any order.

Times are integers: stamps and server clocks in milliseconds in the limiter, durations in nanoseconds.
A step of the limiter carries two clocks, the stamp its gateway sent and the clock of the Redis server,
which alone decides when a key expires. `Drift(run, d, w)` says that no stamp lies more than `d` behind an
earlier one, that the server clock never goes back, and that between two steps it advances at most one
window `w` further than the stamps, which is the slack that the expiry of twice the window leaves.
`Drift(run, 0, w)` is one timeline of stamps that never goes back, with any delay between stamp and script
run that varies by no more than a window. Clock readings, random draws, upstream outcomes,
context cancellation and JSON decoding are parameters, quantified over in every result. Floating-point
numbers are reals; the scaled draw of the weighted strategy is written as repeated addition
(`Strategies.Times`), which `Strategies.TimesIsProduct` shows to be the product.

Four statements one might expect are false of the code. Each has a member that exhibits a failing run or
input, and one that gives the exact condition under which the statement holds:

- a completed revoke stops every later call: `KeyCache.StaleInsertRace` is the run,
  `KeyCache.RevokedForNewcomers` the condition (and `KeyCache.RevokedForGood` when calls already in flight
  count as well);
- a computed wait is the capped exponential one: `Retry.BackoffOverflows` is the input,
  `Retry.BackoffWithinNominal` the condition;
- `rpm_used` counts the window once the check is done: `LimiterRefinement.UnlimitedIsCounted` is the run,
  `LimiterRefinement.RequestsConserved` the condition;
- a stream that its context cuts short records nothing against the provider:
  `StreamHealth.CutBeforeTheFirstLine` is the input, `StreamHealth.TrackedStream` the condition.

The latency samples telescope to the growth of the latency sum if and only if the sum never moves without
the count (`Latency.SamplesTelescope`, for every reader the poller may be given). The reader the gateway
installs takes both numbers from one histogram snapshot (internal/metrics/metrics.go:148-177), so they move
together and the samples do telescope there; `Latency.SumAloneIsMissed` shows what another reader would
lose.

The comments of `tpm_record.lua` speak of seconds, but the caller passes milliseconds; the model does
what the code does, so the token key lives a thousand times longer than two windows.

## Model

| member | source | states |
|---|---|---|
| `MemberCodec.MemberRoundTrip` | internal/ratelimit/check.lua:57-62 | parsing after the last colon gives back the token count that was written, whatever the identifier contains |
| `MemberCodec.UnreadableAddsNothing` | internal/ratelimit/check.lua:57-63 | a member without a colon, or with anything but digits after its last one, adds nothing |
| `MemberCodec.MemberInjective` | internal/ratelimit/tpm_record.lua:17 | two token members are equal only if identifier and token count are |
| `MemberCodec.ReqIDInjective` | internal/ratelimit/limiter.go:166-169 | equal request identifiers come from the same process and the same counter value, even across different stamps |
| `SortedSets.OldestScore` | internal/ratelimit/check.lua:34-40 | the scan finds the least score of the set, or now for an empty set |
| `Scripts.SumMembers` | internal/ratelimit/check.lua:55-64 | the loop adds up the tokens of every member exactly once, in any order |
| `Scripts.KeyWindows.Check` | internal/ratelimit/check.lua:42-76 | the script, statement by statement, has the state and the reply of the specified step, on every path |
| `Scripts.KeyWindows.Record` | internal/ratelimit/tpm_record.lua:17-18 | the record script adds one member to the token set, extends its life, and leaves the request set alone |
| `LimiterRuns.GatewaysAreFresh` | internal/ratelimit/limiter.go:155-169 | gateways with different prefixes, each counting its own requests, never use an identifier twice in any run |
| `LimiterRuns.ShapeHolds` | internal/ratelimit/check.lua:71-74 | in every run, whatever the clocks do, each member is written once, by one event, and weighs what the scripts will read from it |
| `LimiterRuns.TrackedHolds` | internal/ratelimit/check.lua:42-74 | invariant of every run, whatever the drift: the pruned, expiring sets hold every entry younger than the window and nothing that was not written |
| `LimiterRuns.PrunedAfterCheck` | internal/ratelimit/check.lua:3-5 | a check leaves nothing older than its window in the request set, nor in the token set if it got to read it |
| `LimiterBounds.RequestWindowBound` | internal/ratelimit/check.lua:44-49 | in every run with drift d, no interval of length at most window - d holds more admitted requests than the limit |
| `LimiterSkew.SkewBoundIsTight` | internal/ratelimit/check.lua:44-49 | for every limit, window and drift there is a run in which an interval one millisecond longer holds twice the limit |
| `LimiterBounds.TokenOvershootBound` | internal/ratelimit/check.lua:51-69 | tokens recorded after admission overshoot: with at most k requests outstanding, each recording at most m once, any interval of length window - d holds fewer than t + k*m tokens |
| `LimiterOvershoot.OvershootIsTight` | internal/ratelimit/check.lua:51-69 | for every window, drift d below it, limit t, concurrency k and size m there is a run that meets all those hypotheses and records t + k*m - 1 tokens in an interval of length window - d |
| `LimiterRefinement.Refines` | internal/ratelimit/check.lua:42-76 | on one timeline every reply of every run equals, in all six fields, the reply of a limiter that never deletes: pruning and expiry cannot be observed |
| `LimiterRefinement.AdmitsExactly` | internal/ratelimit/check.lua:44-76 | a check is refused by the request limit exactly when the window holds that many admissions, else by the token limit exactly when the tokens recorded in the window reach it, and is admitted otherwise |
| `LimiterRefinement.RequestsConserved` | internal/ratelimit/check.lua:21-76 | the reported request count is the number of admissions in the window after the check if and only if the check has a request limit or the tokens already recorded in the window refuse it |
| `LimiterRefinement.UnlimitedIsCounted` | internal/ratelimit/check.lua:71-76 | one admission of a key with a token limit alone is reported as one request although the window then holds none |
| `LimiterRefinement.TokensConserved` | internal/ratelimit/check.lua:51-68 | the reported token sum is the sum of the counts handed to all record steps so far with stamps in the window, each once |
| `LimiterAdvice.ReservationDecides` | internal/ratelimit/limiter.go:207-233 | a reservation is allowed if and only if the admissions in the window are below the request limit and the tokens recorded in it below the token limit, a limit that is not positive being none; it advises a wait if and only if it is not allowed |
| `LimiterAdvice.RequestHeaders` | internal/ratelimit/limiter.go:207-215 | Remaining is the limit less the admissions in the window after the check, and Reset, in (0, window], the time until the oldest of them leaves it |
| `LimiterAdvice.TokenHeaders` | internal/ratelimit/limiter.go:207-215 | the same for the token limit and the tokens recorded in the window; a check that does not read them, for want of a token limit or because the request limit refused it, reports an empty window |
| `LimiterAdvice.RejectedIsErasable` | internal/ratelimit/check.lua:3-5 | dropping a rejected check from a run changes no later reply, so a rejected request consumes nothing |
| `LimiterAdvice.RpmRetryIsExact` | internal/ratelimit/limiter.go:216-233 | the advised wait lies in (0, window]; every check before it is over is rejected by the request limit, and none after it while nobody was admitted since |
| `LimiterAdvice.TpmRetryIsSound` | internal/ratelimit/limiter.go:224-232 | the advised wait is the token reset, in (0, window], never the fallback; every check before it is over is rejected, whatever is recorded meanwhile |
| `Limiter.ParseCheckResult` | internal/ratelimit/limiter.go:253-275 | accepts exactly six integers, recovers every reply that was shipped, and treats a first field other than 1 as a rejection |
| `Limiter.RedisLimiter.NewReqID` | internal/ratelimit/limiter.go:166-169 | the counter goes up by one and the identifier carries prefix, stamp and counter |
| `Limiter.RedisLimiter.Reserve` | internal/ratelimit/limiter.go:184-235 | one script run under a fresh identifier and the reservation read off its reply; a positive limit of the key goes before the configured one; a key without limits is allowed and touches nothing |
| `Limiter.RedisLimiter.RecordTokens` | internal/ratelimit/limiter.go:290-303 | one record under a fresh identifier; nothing for no tokens or no token limit |
| `Limiter.RetryAfterHeader` | internal/apierr/apierr.go:36-41 | the least whole number of seconds, at least one, that covers the wait |
| `Limiter.RoundToSecond` | internal/middleware/ratelimit.go:146-155 | the least non-negative whole second that covers the duration |
| `Middleware.RecordsFollowAdmission` | internal/middleware/ratelimit.go:65-101 | in every interleaving of requests, each record comes after the admission of its own request |
| `Middleware.RecordsOnce` | internal/middleware/ratelimit.go:97-101 | in every interleaving no request records twice |
| `Middleware.OutstandingIsInFlight` | internal/middleware/ratelimit.go:65-101 | at every event the requests that have yet to record are among the admitted, unfinished ones |
| `Middleware.ServesInOrder` | internal/middleware/ratelimit.go:65-101 | requests that each reserve, return from their handler or leave by a panic, and finish, in that order and interleaved in any way, keep to the above: only an admitted request finishes, once, and those in flight are those unfinished |
| `Middleware.FinishComesLast` | internal/middleware/ratelimit.go:97-101 | whoever finishes, recording or not, was admitted before, and its handler returned in between |
| `Middleware.MiddlewareOvershootBound` | internal/middleware/ratelimit.go:65-101 | the token bound t + k*m for every interleaving of requests that each run through serve, k being a bound on admitted, unfinished requests |
| `CaptureWriter.UsageCaptureWriter.WriteHeader` | internal/middleware/ratelimit.go:186-202 | the first header decides the mode; it is withheld when buffering, forwarded otherwise; later ones are ignored |
| `CaptureWriter.UsageCaptureWriter.Write` | internal/middleware/ratelimit.go:204-231 | buffers up to the limit, replays header and buffer before the write that overflows, forwards from then on |
| `CaptureWriter.UsageCaptureWriter.Flush` | internal/middleware/ratelimit.go:236-243 | forwarded except while buffering |
| `CaptureWriter.UsageCaptureWriter.FinishResponse` | internal/middleware/ratelimit.go:260-303 | records, then sends what was withheld |
| `CaptureWriter.FaithfulHolds` | internal/middleware/ratelimit.go:186-243 | invariant of every sequence of handler calls: what was forwarded plus what is withheld is what an unwrapped writer would have sent |
| `CaptureWriter.Transparent` | internal/middleware/ratelimit.go:186-303 | after finish the client has the status and the bytes, in order, of the unwrapped writer, and the buffer never exceeded its limit |
| `CaptureWriter.DecisionHolds` | internal/middleware/ratelimit.go:245-255 | the status is that of the handler's first header or write; the response is buffered if and only if the content type set by then starts with application/json, and streamed if and only if it starts with text/event-stream; the buffer overflows exactly when a JSON body outgrows the limit |
| `CaptureWriter.NothingElseIsWithheld` | internal/middleware/ratelimit.go:186-231 | unless and until the handler commits to JSON, the client has the status and the body of the unwrapped writer after every call |
| `CaptureWriter.FlushesHold` | internal/middleware/ratelimit.go:236-243 | the client sees exactly the flushes asked for before a commitment to JSON, each at its place in the body |
| `CaptureWriter.RecordedOnce` | internal/middleware/ratelimit.go:260-303 | tokens are recorded once, from the complete body and before any byte of it is forwarded, exactly if the content type at the first commitment starts with application/json, the status is 2xx, and the body is not empty, within the limit and reports tokens; never otherwise |
| `WarnThrottle.WarningsAreSpaced` | internal/middleware/ratelimit.go:103-116 | in any interleaving of any number of goroutines the i-th and j-th warnings are at least j - i intervals apart |
| `WarnThrottle.SilencedByAWarning` | internal/middleware/ratelimit.go:103-116 | whoever leaves without logging found a warning less than an interval old, or lost to one logged after its load |
| `KeyCache.InvHolds` | internal/auth/cached.go:64-101 | invariant of every interleaving: each cache entry and each row in hand was read active and unexpired, and every revoke past its update has left its row inactive |
| `KeyCache.AcceptancesAreJustified` | internal/auth/cached.go:64-101 | every acceptance goes back to a store read of an active, unexpired row; one from the cache found its entry within the TTL and before the key expired |
| `KeyCache.StalenessIsBounded` | internal/auth/cached.go:64-107 | once a revoke has updated the store, every acceptance of the key goes back to a read no later than the update; with inserts at most x after their reads, none comes straight from the store after update + x and none finds the cached entry after update + x + ttl |
| `KeyCache.DeadForGood` | internal/store/api_keys.go:106-116 | a revoked key that is neither cached nor in hand is never accepted again, whatever happens |
| `KeyCache.RevokedForGood` | internal/handler/admin_keys.go:144-176 | once a revoke has removed the cached entry, no continuation accepts the key again, lookups already in flight included, if and only if no lookup had its row in hand at that moment |
| `KeyCache.RevokedForNewcomers` | internal/auth/cached.go:64-107 | once a revoke has removed the cached entry, no call begun from then on is ever accepted if and only if no lookup that had read the unexpired row was still to insert it |
| `KeyCache.StaleInsertRace` | internal/auth/cached.go:82-107 | a run that ends with the revoke complete, nothing in flight, and the revoked key still acceptable from the cache |
| `KeyLookups.EveryEndHasAReason` | internal/auth/cached.go:64-101 | in every reachable state the step that ends a call lets its key in with what its row says, or turns it away because the store failed, the key was denied for a good cause no longer than the negative lifetime ago, its cached row had expired, or a read found no row, a revoked one or an expired one |
| `KeyLookups.GoodKeyGetsIn` | internal/auth/cached.go:79-101 | a call for a key whose row is active and unexpired until the call ends is accepted with that row's identifier and expiry, whatever others do meanwhile, unless the store fails it or it finds the key denied |
| `KeyLookups.SparedRow` | internal/store/api_keys.go:106-116 | a row changes only by a revoke of its own identifier |
| `KeyLookups.RevokeClears` | internal/auth/cached.go:104-107 | a revoke past its update clears its key, and no other, from both caches |
| `KeyLookups.ExpiredHitIsDenied` | internal/auth/cached.go:66-71 | a hit found expired leaves the positive cache, enters the negative one, and is not accepted |
| `KeyLookups.PositiveServes` | internal/auth/cached.go:66-75 | an inserted key that nothing has taken out is found by every call until its lifetime is over |
| `KeyLookups.NegativeShields` | internal/auth/cached.go:76-78 | a denied key that nothing has cleared is refused without a read of the store until the denial has lived its time |
| `Health.ProviderHealth.constructor` | internal/provider/health.go:39-54 | starts closed; a threshold or cooldown that is not positive becomes 5 or 30 seconds |
| `Health.ProviderHealth.RecordSuccess` | internal/provider/health.go:57-64 | the history gains a success and every field remains a view of it |
| `Health.ProviderHealth.RecordFailure` | internal/provider/health.go:71-84 | the history gains a failure; the result says whether the run of failures is still below the threshold |
| `Health.ProviderHealth.IsHealthy` | internal/provider/health.go:89-98 | true exactly if fewer than threshold failures end the history or the last failure is a cooldown old |
| `Health.ProviderHealth.Status` | internal/provider/health.go:111-132 | the same verdict, with the number of failures that end the history, the times of the latest success and the latest failure, and the error of the latest failure that came with one |
| `Health.HistoryTells` | internal/provider/health.go:57-84 | what the fields are views of, by index: the run of failures, the latest success, failure and error |
| `Health.FailureReopens` | internal/provider/health.go:71-98 | after the failure that completes a run of threshold failures, and after every further one, the breaker is open for exactly one cooldown from that failure |
| `Health.SuccessCloses` | internal/provider/health.go:57-64 | after a success the breaker stays closed for up to threshold - 1 failures, whatever came before |
| `Retry.ChatCompletion` | internal/provider/health_decorator.go:54-92 | for every script of outcomes and cancellations: at most MaxRetries + 1 calls, ending in the first success, the first error that is not retryable or the last error; one health outcome, none when cancelled while waiting; the wait is the sum of the backoffs, at most min(base*(2^R - 1), 30s*R) for R = MaxRetries when no 429 names a Retry-After and base*2^(R-1) fits in 63 bits |
| `Retry.ChatCompletionStream` | internal/provider/health_decorator.go:97-134 | the same before the first event, and from then on the tracked stream |
| `Retry.TrackStreamHealth` | internal/provider/health_decorator.go:138-164 | events are forwarded in order up to the caller's departure; a stream that ends records one outcome, with its last error if it had one; one whose context the tracker finds done with an event in hand records none |
| `Retry.EndsUniquely` | internal/provider/health_decorator.go:54-92 | the script determines the number of calls and the ending |
| `Retry.BackoffWithinNominal` | internal/provider/health_decorator.go:195-215 | the computed wait lies between half the capped exponential wait and all of it, on every platform and for every draw, if and only if base * 2^(attempt-1) fits in 63 bits |
| `Retry.NominalDoubles` | internal/provider/health_decorator.go:202-211 | the nominal waits start at the configured wait, or one second without one, and double up to thirty seconds |
| `Retry.JitterSpreads` | internal/provider/health_decorator.go:212-214 | every duration from half a wait up to it is drawn by some random number |
| `Retry.EachWait` | internal/provider/health_decorator.go:195-215 | each wait is what a 429 asks for, if it asks, else between half the nominal wait and all of it |
| `Retry.BackoffOverflows` | internal/provider/health_decorator.go:206-214 | with a base of one second the thirty-fifth retry can compute a negative wait, that is none, where thirty seconds were meant |
| `Retry.TotalWaitBound` | internal/provider/health_decorator.go:195-215 | unless a 429 names a Retry-After, r waits total at most min(base*(2^r - 1), 30s*r), if base*2^(r-1) fits in 63 bits |
| `Strategies.SelectPriority` | internal/router/strategy/priority.go:27-38 | the first candidate of least priority |
| `Strategies.RoundRobin.Select` | internal/router/strategy/round_robin.go:31-50 | the counters stay those of the sequence of selections so far, wrapping at 64 bits, and the pick is the one that sequence gives |
| `Strategies.RoundRobinIsFair` | internal/router/strategy/round_robin.go:31-41 | over any stretch of a run in which a group of n is selected k times, each index is picked floor(k/n) or ceil(k/n) times, whatever other groups do |
| `Strategies.PickIsTurn` | internal/router/strategy/round_robin.go:31-41 | the k-th selection of a group, counted from zero, picks index k modulo 2^64 modulo the candidates, for every run |
| `Strategies.PriceMeans` | internal/router/strategy/cost.go:121-135 | a price is the input bytes at four to a token and input prices, plus the allowance, or 256, at output prices, per thousand |
| `Strategies.ContentLengthAdds` | internal/router/strategy/cost.go:121-127 | the input bytes are those of all messages together |
| `Strategies.EstimateCost` | internal/router/strategy/cost.go:121-135 | the loop computes the price of the message bytes and the output allowance |
| `Strategies.SelectCost` | internal/router/strategy/cost.go:67-89 | the first cheapest priced candidate; round robin exactly when none is priced |
| `Strategies.SelectWeighted` | internal/router/strategy/weighted.go:41-77 | the candidate whose weight interval holds the scaled draw, and no other; the last positive weight for a draw rounded up to the total; equal shares when no weight is positive |
| `Strategies.ScanWeights` | internal/router/strategy/weighted.go:60-76 | the two scans find the owner of the pick, or the last positive weight when the pick is the total |
| `Strategies.WeightsPartition` | internal/router/strategy/weighted.go:59-68 | the intervals partition [0, total): each pick has one owner, and an interval is as long as its candidate's positive weight |
| `Strategies.PickInRange` | internal/router/strategy/weighted.go:59 | a draw in [0, 1) scales to a pick in [0, total), and only a draw of one reaches the total |
| `Latency.LatencyOptimized.Observe` | internal/router/strategy/latency.go:103-114 | a sample is appended to the provider's series, whose moving average the field remains; negative samples are ignored |
| `Latency.EwmaIsWeightedSum` | internal/router/strategy/latency.go:103-114 | the moving average is the sum of the samples times their weights |
| `Latency.WeightDecays` | internal/router/strategy/latency.go:103-114 | a sample enters with weight alpha, the first one with weight one, and keeps the share 1 - alpha of its weight at each sample after it |
| `Latency.WeightsSumToOne` | internal/router/strategy/latency.go:110 | those weights add up to one |
| `Latency.WeightsNonNegative` | internal/router/strategy/latency.go:110 | and none is negative |
| `Latency.EwmaBetween` | internal/router/strategy/latency.go:103-114 | the moving average stays within any bounds on the samples |
| `Latency.SampleMeans` | internal/router/strategy/latency.go:145-165 | a sample is taken exactly if the count rose, and times the observations it stands for it is the growth of the sum, or nothing if the sum shrank |
| `Latency.LatencyOptimized.PollOne` | internal/router/strategy/latency.go:145-165 | one provider's totals give one sample, or none when the count did not rise |
| `Latency.LatencyOptimized.Poll` | internal/router/strategy/latency.go:133-170 | one tick, providers in any order: each gets the sample its totals give and no other changes |
| `Latency.LatencyOptimized.Run` | internal/router/strategy/latency.go:133-170 | over any series of reads, each compared with the one before, every provider gets the samples of its own series, in order |
| `Latency.SamplesTelescope` | internal/router/strategy/latency.go:133-170 | over reads without reset those samples times their observations add up to the growth of the latency sum if and only if the sum never moves without the count |
| `Latency.SamplesAddUp` | internal/router/strategy/latency.go:133-170 | with what was missed in polls without a new count, they always do |
| `Latency.SumAloneIsMissed` | internal/router/strategy/latency.go:154-157 | a sum that grew while the count stood still gives no sample |
| `Latency.LatencyOptimized.Select` | internal/router/strategy/latency.go:74-98 | the first candidate of least average among the measured; round robin exactly when none is measured |
| `Routing.FilterHealthy` | internal/router/candidates.go:111-120 | filtering in place leaves in the front of the array the order-preserving filter of what it held |
| `Routing.FilterEmbeds` | internal/router/candidates.go:111-120 | that filter keeps exactly the candidates whose breaker is closed, each once, in order |
| `Routing.FirstMinThroughFilter` | internal/router/router.go:171-207 | a first minimum of the filtered list is the first minimum, in configuration order, among those that pass |
| `Routing.ExpandGroup` | internal/router/candidates.go:58-76 | the result is made of exactly the registered candidates of the group, at increasing indices, each with its model, prices, priority and weight and the provider registered for its model |
| `Routing.BestThroughFilter` | internal/router/router.go:171-207 | what each strategy promises on the filtered list holds among the healthy candidates of the whole list |
| `Routing.BestOfGroup` | internal/router/candidates.go:51-76 | the best candidate of the expanded list is, by the group's own indices, the first live one with the least priority number, price or average |
| `Routing.Router.Pick` | internal/router/router.go:171-207 | each strategy's pick from a list that is not empty is the one it promises |
| `Routing.Router.Route` | internal/router/router.go:171-207 | unknown model exactly for a name that is neither group nor registered; no healthy provider exactly when every resolved candidate's breaker is open; otherwise, with the strategy of the group or the default one, the strategy's pick: of a group, the first live candidate by the group's own indices with the least priority number, price or average; of any other model, its provider, its name behind an alias and its listed price |
| `AnthropicStream.TranslateResponse` | internal/provider/anthropic/anthropic.go:195-227 | the content joins the texts of exactly the text blocks, at increasing indices; the stop reason is named as it should be; input, output and total tokens are in their places |
| `AnthropicStream.HandleLine` | internal/provider/anthropic/anthropic.go:311-404 | one line does to the loop's variables, and sends, what its event type says |
| `AnthropicStream.StreamLoop` | internal/provider/anthropic/anthropic.go:304-412 | the loop emits what the lines mean, cut where the context is done |
| `AnthropicStream.CancelledIsPrefix` | internal/provider/anthropic/anthropic.go:311-412 | a context that is done at any moment leaves a prefix of the uncut stream, and all of it if it is never done |
| `AnthropicStream.ErrorIffCut` | internal/provider/anthropic/anthropic.go:311-412 | for all lines: exactly one error, as the last event, if no message_stop is reached or a line before it does not decode, and it names that line's event type or the reader's failure; no error otherwise |
| `AnthropicStream.EmitWhole` | internal/provider/anthropic/anthropic.go:304-412 | a complete stream, with any noise and any cutting of the text, emits one chunk per text delta and the final chunk |
| `AnthropicStream.StreamAgrees` | internal/provider/anthropic/anthropic.go:195-412 | streaming and not streaming agree: for a stream whose deltas join to the texts of the text blocks in order, the joined text, identifier, model, finish reason and usage are those of every translation of the complete reply |
| `StreamHealth.LastError` | internal/provider/anthropic/anthropic.go:311-412 | the tracker sees an error exactly if the stream was not cut by its context and does not reach message_stop with every line decoded |
| `StreamHealth.TrackedStream` | internal/provider/health_decorator.go:138-164 | adapter and tracker together: nothing is recorded if and only if the tracker finds the context done with an event in hand; a stream cut before that is recorded as a success, and only an uncut stream that is not whole as a failure |
| `StreamHealth.CutBeforeTheFirstLine` | internal/provider/health_decorator.go:150-162 | a context done before the first line leaves an empty stream and a recorded success |

## Left out

- HTTP: headers other than the status, Content-Length, 1xx responses, routing, request decoding and the JSON of bodies; a body's reported tokens are a parameter.
- Storage and clients: Postgres, migrations, the Redis client and script loading, configuration and its validation.
- Redis failures: a request let through because Redis failed takes no part in the window bounds, since it never reaches the scripts.
- Floating point: rounding, and the exponential behind the averaging weight, which is any real in [0, 1]; a scaled draw that rounds up to the total is the draw of one.
- Integer width: unbounded except for the round-robin counter and the backoff product.
- Hashing, key generation, the admin token, and the debounced last-used update.
- Metrics, logging and debug capture.
- The OpenAI and Google adapters, and Anthropic request translation and error responses: easy members beside the stream.
- Router construction, once-only warnings and nil requests.
- The lifetimes in KeyCache are the effective ones: the cache library takes a configured lifetime that is not positive for a very long one.
- KeyCache and WarnThrottle are state machines of atomic steps on values, not classes: what matters there is the interleaving of several callers. The database clock and the process clock are one.
- Routing.Router.Route: all candidates are looked at at one instant; between two looks a breaker may change.
- Routing.Router.Pick: does not say how the counters move, which `Strategies.RoundRobin.Select` states; the order in which concurrent requests draw their turns is the order of the run in `Strategies.RoundRobinIsFair`.
- Strategies.RoundRobinIsFair: for fewer than 2^64 selections of the group, since at the wrap-around a list whose length does not divide 2^64 repeats or skips an index.
- LimiterAdvice.TpmRetryIsSound: one way only; when the oldest record leaves the window the rest may still reach the limit, and the source promises no more.
- LimiterRefinement.TokensConserved: for checks not refused by the request limit, since those report no token sum.
- Health: after a cooldown every request is let through, not just one; there is no half-open state to model.
