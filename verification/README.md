# Agnos Proxy: a verified model of its policies and translators

Agnos Proxy is a gateway in front of model providers. It decides whether a request may run (budgets, rate
limits), which provider serves it and how failures are absorbed (retry, fallback, circuit breaker), it translates
between OpenAI's message format and those of Anthropic, Bedrock and Gemini, it delivers governance events, and it
truncates contexts and prices models. This project models those components and proves what they promise over all
inputs and all runs.

How to read it: a component's file holds the code's own operations - classes with `modifies` clauses and loops
where the code updates state in place - each proved equal to a function of the old state. The `...Runs` file beside
it holds the theorems about whole runs of that function.

| files | component |
|---|---|
| `Budgets`, `BudgetRuns`, `BudgetModels` | spend caps with a cached SQL sum and a live delta; every interleaving of checks, SQL reads, completions and commits; the per-model cap over such runs |
| `Keys`, `RateLimit`, `RateLimitRuns`, `RateLimitRequests` | scope keys; the in-memory token buckets; interval bounds and tenant isolation; the same for requests and their estimates, and what must be admitted |
| `RedisLimiter`, `RedisRuns`, `RedisRequests` | the shared fixed-window counters, with INCRBY, EXPIRE and the comparison as separate steps of any number of replicas; what that means for requests and their estimates |
| `Breaker`, `Fallback`, `FallbackRuns`, `FallbackAnswers` | circuit breaker, the nested retry and fallback loops, the weighted pick of the primary, and what an execution answers |
| `OpenAI`, `Codecs`, `Conversation` | messages, chunks and what a client folds them to; a codec that meets the assumptions about JSON; content blocks and whole conversations |
| `Anthropic`, `AnthropicRuns`, `Bedrock`, `BedrockRuns`, `Gemini`, `GeminiRuns`, `Adapters` | the three adapters: translation both ways, the event loops of their streams, and what they make of the same message |
| `Bus`, `Kafka` | the bounded drop-oldest queues; the publisher with its dead-letter buffer |
| `Chunker`, `Pricing` | context truncation; price resolution |

Conventions. Clocks, costs, tokens in buckets and prices are reals; every clock reading of an operation is a
parameter. Engine replies, send outcomes, SQL answers, Redis replies, made-up ids and the random pick are parameters
too, so every statement holds for all of them. JSON dumping and parsing are given functions; of them it is assumed
that a value without repeated object keys parses back from its dump, that parsing yields only such values, that `"{}"`
is the empty object and that `""` does not parse. `Codecs.SomeCodecIsSound` exhibits functions that meet the assumption.

What came out differently from the repository's own documentation:

- A cap of zero is not enforced when no other cap is set to something else: the fast path takes it for an unset cap. `ReachedCapAdmitsIff` gives the exact condition, `ZeroCapIsNotEnforced` a run that spends.
- Two-character workspace ids are refused although the message promises 1 to 64 characters (`SlugLengths`).
- The per-model live delta is written under the full model id but read under the cap's substring, so it counts exactly when the two are equal (`PerModelDeltaSeenIff`).
- A rate-limit refusal advertises a wait even when the request asks for more tokens than the bucket ever holds; no wait then helps (`BeyondCapacityNever`).
- The Anthropic adapter's heading calls streaming deferred; the file implements it, and it is modelled.
- Anthropic's stream takes the output count from message deltas alone; one reported only at the start is lost (`StartOutputIsLost`).
- Bedrock's stream charges a tool-argument fragment to the latest tool call whatever block it names; that is right exactly for the latest tool block (`CounterIsTheIndexIff`). Its finish reason differs from the non-streamed one exactly when there are tool calls and the stop reason is not `tool_use` (`CutCallFinishesDiffer`).
- Gemini's stream sees a function call in a part whose text is empty; the non-streamed reading does not. Everything agrees exactly when no part is like that (`HiddenCall`).
- A system message whose content is no string is dropped by the Anthropic and Bedrock adapters but sent to Gemini as the user's (`SystemMessages`).
- An assistant turn that calls tools and has its text as a list of parts loses that text in all three adapters.
- Tool arguments whose JSON value is falsy but not `{}` (such as `[]` or `0`) come back as `{}` (`EmptyListBecomesObject`).
- Price resolution is called deterministic; with several contained keys of the same greatest length it depends on the order in which keys were set, unless their prices are equal (`OrderIndependentIff`, `OrderDecides`).
- Truncation is documented to drop messages until within budget; the result is within budget exactly when the system messages alone are, and system messages are moved to the front.
- The Kafka publisher says events are never silently dropped; a full dead-letter buffer pushes out its oldest record (`EvictsIff` says exactly when, `OutageLosesRecord` gives a run that loses an event), and a record whose own send succeeded is buffered a second time when the flush after it fails.

## Model

| member | source | states |
|---|---|---|
| Budgets.FirstViolationWins | gateway/core/budgets.py:241-258 | a refusal names the first violated of client, workspace, user and per-model cap, with that level's cap and spend; allowed exactly when none is violated |
| Budgets.PruningIsInvisible | gateway/core/budgets.py:70-75 | dropping expired deltas in place changes no sum read at that time or later |
| Budgets.SumOfLive | gateway/core/budgets.py:70-75 | the filtered list sums to the unexpired deltas |
| Budgets.SpendTracker.DeltaFor | gateway/core/budgets.py:70-75 | reports the unexpired deltas of a key and prunes that key only |
| Budgets.SpendTracker.AddLiveSpend | gateway/core/budgets.py:78-101 | a positive cost is charged once to each of its scope keys with a 60 s expiry and drops the overlapping snapshots; other costs change nothing |
| Budgets.SpendTracker.InvalidateSpendCache | gateway/core/budgets.py:104-114 | exactly the snapshots of the same client and workspace, or the same workspace and user, are dropped |
| BudgetModels.AnswerJudgesPerModel | gateway/core/budgets.py:179-258 | a request that waited for SQL goes on only if SQL's per-model sum and the last minute's spend under exactly the cap's substring are together below its per-model cap; that is all it takes when it has no other cap |
| BudgetModels.ArrivalJudgesPerModel | gateway/core/budgets.py:164-258 | a request let through on arrival under a per-model cap had an answer of SQL at most 0.5 s old, for the same tenant and substring, that with the last minute's spend is below the cap |
| BudgetModels.PerModelCapInRuns | gateway/core/budgets.py:157-258 | both at every state a run can reach; a per-model cap that SQL says is reached lets nothing through that waited for it |
| BudgetModels.RefusalNamesPerModelSpend | gateway/core/budgets.py:254-257 | the spend a per-model refusal names is exactly that sum |
| BudgetModels.FreshIsKnown | gateway/core/budgets.py:66-101 | in every run the per-model deltas are what was spent under each id in the last minute, and every snapshot is an answer of SQL for its tenant and substring |
| BudgetModels.NextCheckReadsAgainIff | gateway/core/budgets.py:99-114 | a completion makes a later check wait for SQL again exactly when it cost something and was made by the same client in the same workspace, or the same user there |
| BudgetModels.FailsOpen | gateway/core/budgets.py:173-178 | when SQL fails and nothing was spent in the last minute, every request with positive caps is let through |
| BudgetModels.SqlSeesCommittedRows | gateway/core/budgets.py:123-145 | the SQL sums do not include rows that are not committed yet |
| Budgets.SpendTracker.FoldDeltas | gateway/core/budgets.py:179-187 | the reported spend is base plus live delta per scope; only the keys read are pruned |
| Budgets.SpendTracker.CheckStart | gateway/core/budgets.py:203-258 | a check up to its SQL wait: decided at once without caps or with a fresh snapshot, otherwise pending |
| Budgets.SpendTracker.CheckFinish | gateway/core/budgets.py:157-258 | the rest of a check: the answer, or zeros on failure, is cached for 0.5 s and judged with the deltas |
| BudgetRuns.StepKeepsInv | gateway/core/budgets.py:66-187 | every step of every request, SQL read and commit keeps the live delta equal to the last minute's charges and every snapshot and running query faithful to the ledger |
| BudgetRuns.SpendReportBound | gateway/core/budgets.py:66-187 | in every run with commits within 58 s and SQL within 1.5 s the reported spend is at least the true total and at most that plus the last 60 s, whatever the cache holds |
| BudgetRuns.ReportIsTwoSided | gateway/core/budgets.py:157-187 | the same bound at any state that keeps the invariant |
| BudgetRuns.AllowedMeansBelowCap | gateway/core/budgets.py:203-258 | a check that lets a request through has a true total below the cap |
| BudgetRuns.BoundedOvershoot | gateway/core/budgets.py:157-258 | with a positive cap, at most k requests in flight costing at most C each, a scope's spend stays strictly below cap + k*C in every interleaved run |
| BudgetRuns.ReachedCapAdmitsIff | gateway/core/budgets.py:203-258 | at any state of the invariant, an arriving request whose scope has really reached its cap is let through exactly when none of its caps is other than zero |
| BudgetRuns.ReachedCapRefusesAnswer | gateway/core/budgets.py:203-258 | a request that had to wait for SQL is never let through once its scope has reached its cap |
| BudgetRuns.ReachedCapInRuns | gateway/core/budgets.py:203-258 | both, at every state a run can reach |
| BudgetRuns.ZeroCapHolds | gateway/core/budgets.py:203-258 | in every run a scope capped at zero spends nothing if each of its requests has another cap that is not zero |
| BudgetRuns.ZeroCapIsNotEnforced | gateway/core/budgets.py:223-225 | without one, a run in which a client capped at nothing is let through and spends |
| BudgetRuns.PerModelDeltaSeenIff | gateway/core/budgets.py:95-96 | a completion moves the reported per-model spend exactly when the cap's substring is the full model id |
| Keys.UserKeyInjective | gateway/core/rate_limit.py:87 | without ':' in workspace ids user keys determine workspace and user |
| Keys.ModelKeyInjective | gateway/core/rate_limit.py:127 | likewise model keys |
| Keys.ColonBreaksUserKeys | gateway/core/rate_limit.py:87 | with ':' in a workspace id each of its users shares a key with a user of another workspace |
| Keys.SlugHasNoColon | gateway/core/admin_validation.py:66 | the pattern of workspace ids rules ':' out |
| Keys.SlugKeysAreInjective | gateway/core/admin_validation.py:66 | among workspaces with accepted ids no two users and no two aliases share a key |
| Keys.SlugLengths | gateway/core/admin_validation.py:66 | ids of letters and digits are accepted at length 1 and 3 to 64 |
| RateLimit.WaitIsExact | gateway/core/rate_limit.py:19-31 | with nobody else taking, a refused caller is served exactly from the advertised wait on, if the bucket can hold that much |
| RateLimit.BeyondCapacityNever | gateway/core/rate_limit.py:19-31 | more than the capacity is never granted |
| RateLimit.Bucket.Take | gateway/core/rate_limit.py:19-26 | refill capped at capacity, then take all or nothing |
| RateLimit.Bucket.SecondsUntil | gateway/core/rate_limit.py:28-31 | the unrounded wait |
| RateLimit.FirstViolationWins | gateway/core/rate_limit.py:64-138 | the first failing check alone is reported, earlier ones stay debited, later ones draw on nothing |
| RateLimit.ChecksAreInOrder | gateway/core/rate_limit.py:84-136 | user, workspace, client, model, requests before tokens |
| RateLimit.ChecksAreTheLimits | gateway/core/rate_limit.py:84-136 | every configured limit is checked under its own key and amount, and nothing else is |
| RateLimit.RateLimiter.BucketAt | gateway/core/rate_limit.py:39-45 | the stored bucket, or a full new one when the limit changed, with every other bucket untouched |
| RateLimit.RateLimiter.Draw | gateway/core/rate_limit.py:39-45 | finds the bucket and draws from it, leaving all others |
| RateLimit.RateLimiter.CheckOne | gateway/core/rate_limit.py:89-96 | one dimension of one scope |
| RateLimit.RateLimiter.CheckScope | gateway/core/rate_limit.py:98-109 | both dimensions of one scope, stopping at a refusal |
| RateLimit.RateLimiter.CheckMultiScope | gateway/core/rate_limit.py:64-138 | the four scopes over shared bucket objects equal serving their checks in order |
| RateLimitRuns.StoreIsItsHistory | gateway/core/rate_limit.py:34-45 | after any requests every bucket is what its own checks made of it |
| RateLimitRuns.SlotBound | gateway/core/rate_limit.py:19-45 | what a bucket grants in any interval is at most one capacity, one more for each limit change, and the refill of the interval |
| RateLimitRuns.IntervalBound | gateway/core/rate_limit.py:64-138 | the same for what admitted requests were granted, for every scope and dimension at once, though refused requests debit earlier scopes |
| RateLimitRuns.IntervalBoundConstantLimit | gateway/core/rate_limit.py:64-138 | with an unchanged limit L at most L + L*T/60 in any interval of length T |
| RateLimitRequests.EstimateBound | gateway/core/rate_limit.py:64-138 | in every run the token estimates (or the number) of the requests admitted in an interval obey the same bound, stated on the requests |
| RateLimitRequests.EstimateBoundOneLimit | gateway/core/rate_limit.py:64-138 | under one limit L they total at most L + L*T/60 |
| RateLimitRequests.OverLimitIsRefused | gateway/core/rate_limit.py:93-96 | a request that estimates more than a limit of its is refused, whatever happened before |
| RateLimitRequests.ClearIsAdmitted | gateway/core/rate_limit.py:19-45 | a request is admitted if it asks no slot for more than its limit and each slot is unused, was last used under another limit, or has rested for a minute |
| RateLimitRequests.FirstIsAdmittedIff | gateway/core/rate_limit.py:34-138 | a limiter that has just started admits a request exactly when it estimates no more than any of its limits |
| RateLimitRequests.ChangedLimitAdmits | gateway/core/rate_limit.py:39-45 | a change of limit gives a fresh capacity |
| RateLimitRequests.RestedIsAdmitted | gateway/core/rate_limit.py:19-45 | after any run a request within its limits is admitted if nobody has drawn on its slots for a minute |
| RateLimitRequests.BurstAdmitsTheFirst | gateway/core/rate_limit.py:98-105 | of a burst of requests at one instant on a new slot of limit L exactly the first L are admitted |
| RateLimitRuns.StrangersShareNoSlot | gateway/core/rate_limit.py:84-136 | requests with no common workspace or client touch no common bucket |
| RateLimitRuns.NonInterference | gateway/core/rate_limit.py:64-138 | a group's verdicts are the same with the other group's requests removed |
| RedisLimiter.RenderedInjective | gateway/core/redis_rate_limit.py:65 | different scope, window or dimension means a different Redis key, whatever the ids contain |
| RedisLimiter.BumpsAreTheLimits | gateway/core/redis_rate_limit.py:83-99 | every configured limit has its counter bumped in the request's window, and nothing else |
| RedisLimiter.BumpsAreInOrder | gateway/core/redis_rate_limit.py:83-99 | user, workspace, client, model, in each requests before tokens |
| RedisRequests.EstimatesWithinLimit | gateway/core/redis_rate_limit.py:60-100 | the token estimates of the requests let through a token counter without an error total at most its limit, and those let through a request counter number at most its limit, the requests taken from where they started |
| RedisRequests.OverLimitIsRefused | gateway/core/redis_rate_limit.py:73-78 | a request that estimates more tokens than a limit configured for it is never let through without an error |
| RedisLimiter.RedisServer.IncrBy | gateway/core/redis_rate_limit.py:66-75 | INCRBY on a live, new or expired key |
| RedisLimiter.RedisServer.Expire | gateway/core/redis_rate_limit.py:69-76 | EXPIRE on a live key, and nothing on a dead one |
| RedisLimiter.StepKeepsInv | gateway/core/redis_rate_limit.py:60-100 | every interleaved command of any replica keeps counters equal to their increments and unable to expire in their 90 s |
| RedisRuns.WindowSafety | gateway/core/redis_rate_limit.py:60-100 | per key and minute the increments that pass total at most the limit; so do the amounts asked by the requests let through without an error, and hence their number |
| RedisRuns.VerdictsAreExact | gateway/core/redis_rate_limit.py:66-100 | an increment passes exactly when it and all before it fit; a refused request met the full counter whose scope and dimension it names, after passing all before it; an error-free allowed one passed all |
| RedisRuns.AtMostTwiceTheLimit | gateway/core/redis_rate_limit.py:60-100 | requests whose clock reading lies in any 60 s are granted at most twice the limit |
| RedisRuns.FirstIncrementDetected | gateway/core/redis_rate_limit.py:68-76 | the reply equals the increment exactly when nobody bumped the counter before |
| RedisRuns.EveryCounterExpires | gateway/core/redis_rate_limit.py:68-76 | without errors every counter has an expiry once no request is pending, at least 90 and less than 180 s after its minute began |
| Breaker.CircuitBreaker.Ask | gateway/core/fallback.py:37-45 | asking resets exactly an expired breaker and leaves all others |
| Breaker.CircuitBreaker.Record | gateway/core/fallback.py:47-56 | an outcome changes only its own breaker |
| Breaker.OpenExactly | gateway/core/fallback.py:37-56 | over every history, open exactly when the failures since the last success or observed expiry reach the threshold and the latest is at most a cooldown old |
| Breaker.OpenedIffEnoughFails | gateway/core/fallback.py:47-56 | opened_at is set exactly when the count reaches a threshold of at least 1 |
| Breaker.TrippedAtZeroStaysClosed | gateway/core/fallback.py:39 | a breaker that trips is open at that moment exactly when the clock is not zero |
| Breaker.SuccessForgets | gateway/core/fallback.py:50-52 | nothing before a success matters |
| Fallback.CallOnce | gateway/core/fallback.py:131-157 | one bounded engine call, a timeout or exception read as a 504 or 502 body, recorded in breaker and attempts |
| Fallback.TryTarget | gateway/core/fallback.py:129-171 | one target's retries end at its first success, its first failure that is not retryable, or after the allowed attempts |
| Fallback.VisitTarget | gateway/core/fallback.py:104-172 | skip or try, with the fallback event from the provider last attempted |
| Fallback.Execute | gateway/core/fallback.py:79-176 | result, attempts, fallback events and breakers are those of the trace of skips, entries and calls |
| Fallback.TransportFailuresAreRetryable | gateway/core/fallback.py:133-162 | timeouts and exceptions are always retried |
| FallbackAnswers.RepliesAreClassified | gateway/core/fallback.py:15-19 | which replies are successes, and which failures are retried: by a transient type, a missing type or a transient status |
| FallbackAnswers.MessageIsPrefix | gateway/core/fallback.py:151-156 | an attempt's message is the first 300 characters of the error's |
| FallbackAnswers.FailedAnswer | gateway/core/fallback.py:147-176 | a failing execution hands back the reply to its last call, which is the last allowed attempt on the last target entered, and the 502 placeholder when it made none, which is when every breaker was open or no attempt was allowed; it names the last target |
| FallbackAnswers.SuccessfulAnswer | gateway/core/fallback.py:142-145 | a success names its target and the first attempt that succeeded, all before it having failed in a way worth a retry, and hands back that attempt's reply |
| FallbackAnswers.EventsTellSkipsAndEntries | gateway/core/fallback.py:105-123 | the fallback events are exactly the skips and entries after an entry, each once and in order, from the provider entered last |
| FallbackAnswers.OtherWorkspaceUntouched | gateway/core/fallback.py:34-56 | an execution for one workspace leaves every breaker of another as it was |
| FallbackAnswers.PickComesFirst | gateway/core/registry.py:129-134 | the pick moves to the front exactly with more than one target and some weight other than one |
| FallbackRuns.CallsBounded | gateway/core/fallback.py:104-172 | at most (max_retries + 1) engine calls for each target |
| FallbackRuns.ServesIff | gateway/core/fallback.py:129-171 | a target serves exactly when some allowed attempt succeeds after only retryable failures |
| FallbackRuns.Completeness | gateway/core/fallback.py:79-176 | with distinct providers, success exactly when some target with a closed breaker serves; the result is that of the first such target |
| FallbackRuns.Reorder | gateway/core/registry.py:129-134 | moving the picked target to the front, in place |
| FallbackRuns.PickIsPermutation | gateway/core/registry.py:129-134 | the pick is a permutation that keeps the others' order |
| FallbackRuns.SuccessIgnoresThePick | gateway/core/fallback.py:104-176 | whether execute succeeds does not depend on the pick |
| FallbackRuns.AttemptsAreTheFailures | gateway/core/fallback.py:105-156 | the attempts list tells exactly the breaker skips and the failed calls, each once and in order, with target, attempt number, status, error type and message |
| FallbackRuns.PrimaryFailuresChain | gateway/core/fallback.py:122-123 | the primary_failed events link each attempted provider to the next, without a gap |
| FallbackRuns.VisitsTrack | gateway/core/fallback.py:104-172 | an execution moves a failing provider's breaker exactly by its visits to it |
| FallbackRuns.DeadProviderLoad | gateway/core/fallback.py:28-172 | executions one at a time call a dead provider at most (threshold + max_retries) * ceil(T / cooldown) times in any interval of length T > 0 |
| Breaker.LoadBound | gateway/core/fallback.py:28-56 | the same for any visits that respect the breaker |
| OpenAI.ArgumentsSurviveIff | gateway/engines/anthropic_direct.py:111-122 | reading and writing back tool arguments keeps their value exactly when it is true, a number other than zero, a text or list that is not empty, or any object |
| Codecs.SomeCodecIsSound | gateway/engines/anthropic_direct.py:111-122 | the assumption about JSON dumping and parsing can be met |
| Codecs.EmptyListBecomesObject | gateway/engines/anthropic_direct.py:231 | an argument value that is falsy but not {} is lost |
| Anthropic.ChatStream | gateway/engines/anthropic_direct.py:353-419 | the event loop with its tool-index map sends the chunks of the events before message_stop |
| AnthropicRuns.StreamTracks | gateway/engines/anthropic_direct.py:353-409 | after every well-formed prefix the folded chunks, the tool map and the counters are those of the blocks assembled by index |
| AnthropicRuns.NumbersGrow | gateway/engines/anthropic_direct.py:382-390 | the tool map numbers tool blocks densely in order |
| AnthropicRuns.StreamingRefinesNonStreaming | gateway/engines/anthropic_direct.py:212-280 | for every well-formed stream, fragments split and interleaved at will, folding the chunks gives the text, calls, indices, finish reason and input count of the non-streamed translation, and its output count exactly when a message delta reported one or the start reported none |
| AnthropicRuns.FinishTellsStopReason | gateway/engines/anthropic_direct.py:271-280 | the stream's finish and the answer's are tool_calls exactly for tool_use, length exactly for max_tokens, stop otherwise; the stream opens with the role, ends with one closing chunk and the end mark, sends no empty text and closes with the counts last reported |
| AnthropicRuns.ToolFinishIffCalls | gateway/engines/anthropic_direct.py:353-419 | when the provider stops for tools exactly if it started a tool block, the client is told tool_calls exactly when it holds calls |
| AnthropicRuns.StartOutputIsLost | gateway/engines/anthropic_direct.py:376-409 | an output count given only at the start of a stream is reported as 0 |
| AnthropicRuns.StrayFragmentReachesFirstCall | gateway/engines/anthropic_direct.py:395-400 | a fragment for a block that is no tool is charged to the first call, so well-formedness is needed |
| AnthropicRuns.AssistantTurnSurvives | gateway/engines/anthropic_direct.py:107-132 | an assistant turn with ids comes back with its text, ids, names, order and argument values, under exact conditions |
| AnthropicRuns.AnswerSentBack | gateway/engines/anthropic_direct.py:212-238 | a turn of Anthropic's returned by the client has the tool uses it had, in order, after all its text |
| AnthropicRuns.ToolResultsStillRefer | gateway/engines/anthropic_direct.py:80-132 | in a whole conversation order is kept and a tool result refers to an earlier tool use exactly when it did before |
| Conversation.TurnReadsBack | gateway/engines/anthropic_direct.py:107-125 | the blocks of an assistant turn read back as its text and its calls |
| Conversation.AssistantKept | gateway/engines/direct_bedrock.py:123-136 | the adapters' common half of the round trip |
| Conversation.TurnSentBack | gateway/engines/direct_bedrock.py:123-136 | the other direction, from blocks to calls and back |
| Conversation.PlacedInOrder | gateway/engines/direct_bedrock.py:108-140 | any translation of single messages that carries ids keeps order and references |
| Bedrock.ChatStream | gateway/engines/direct_bedrock.py:257-293 | the event loop with its running counter sends the chunks of the events |
| BedrockRuns.CounterCountsTools | gateway/engines/direct_bedrock.py:260-275 | the counter is one less than the tool blocks started |
| BedrockRuns.CounterIsTheIndexIff | gateway/engines/direct_bedrock.py:275-284 | the counter is a tool block's index in a map by block index exactly when it is the latest tool block |
| BedrockRuns.StreamTracks | gateway/engines/direct_bedrock.py:257-289 | after every well-formed prefix the folded chunks are the blocks assembled by index |
| BedrockRuns.StreamAgreesWithAnswer | gateway/engines/direct_bedrock.py:210-236 | the stream folds to the non-streamed answer; finish reasons agree exactly without tools or with tool_use; totals exactly when the provider's is absent or the sum |
| BedrockRuns.FinishTellsStopReason | gateway/engines/direct_bedrock.py:178-179 | what each stop reason is told as, by the stream and by an answer without calls; the stream's frame |
| BedrockRuns.CutCallFinishesDiffer | gateway/engines/direct_bedrock.py:225-285 | a call cut off by the token limit finishes as length in the stream and as tool_calls in the answer |
| BedrockRuns.AnyFragmentReachesLastCall | gateway/engines/direct_bedrock.py:282-284 | whatever block a fragment names, the last call gets it |
| BedrockRuns.AssistantTurnSurvives | gateway/engines/direct_bedrock.py:123-136 | the round trip of an assistant turn |
| BedrockRuns.AnswerSentBack | gateway/engines/direct_bedrock.py:182-194 | Bedrock gets back the tool uses it sent |
| BedrockRuns.ToolResultsStillRefer | gateway/engines/direct_bedrock.py:108-140 | order and references over a whole conversation |
| Gemini.ChatStream | gateway/engines/direct_gemini.py:181-211 | the nested loops over chunks and parts send the chunks of the data |
| GeminiRuns.StreamTracks | gateway/engines/direct_gemini.py:181-205 | after any chunks the folded text, calls, counters and finish are those of all parts so far |
| GeminiRuns.StreamAgreesWithAnswer | gateway/engines/direct_gemini.py:113-156 | any split of the parts over chunks folds to the answer for the whole, up to ids, exactly when no part hides a call behind an empty text; conditions for finish reason and totals |
| GeminiRuns.CallsDiffer | gateway/engines/direct_gemini.py:185-199 | the stream has exactly one call more for every such part |
| GeminiRuns.FinishTellsReason | gateway/engines/direct_gemini.py:22-23 | tool_calls with calls, else what each finish reason is told as, by stream and answer; the stream's frame |
| GeminiRuns.HiddenCall | gateway/engines/direct_gemini.py:117-187 | a part with an empty text and a call: one call and tool_calls in the stream, neither in the answer |
| GeminiRuns.SplitsAgree | gateway/engines/direct_gemini.py:181-205 | two splits of the same content, also inside a text, fold to the same turn, ids included |
| GeminiRuns.CutTextGlues | gateway/engines/direct_gemini.py:185-187 | where a text is cut makes no difference to that content |
| GeminiRuns.AssistantTurnSurvives | gateway/engines/direct_gemini.py:43-55 | the round trip of an assistant turn up to ids |
| Adapters.ContentKept | gateway/engines/direct_bedrock.py:98-105 | plain content becomes at least one block, and the blocks hold all of its text |
| Adapters.PlainMessagesAgree | gateway/engines/direct_gemini.py:56-60 | a plain user or assistant message says the same, in the same role, to all three providers |
| Adapters.ToolResultArrives | gateway/engines/direct_bedrock.py:117-122 | a tool result reaches each provider with its content - the string itself, or JSON that parses to it - under its call's id, at Gemini under its name |
| Adapters.NullContent | gateway/engines/direct_gemini.py:147-155 | when an answer's content is null instead of its text |
| Adapters.SystemMessages | gateway/engines/direct_gemini.py:36-38 | which system messages each adapter drops from the conversation |
| Kafka.KafkaObserver.OnEvent | gateway/governance/kafka_observer.py:124-148 | send, flush from the head, buffer on any failure; nothing without a producer or envelope |
| Kafka.KafkaObserver.Flush | gateway/governance/kafka_observer.py:134-138 | sends exactly the records before the first failing send, in order |
| Kafka.Conservation | gateway/governance/kafka_observer.py:124-148 | published, buffered and pushed-out records are, with multiplicity, the received ones and one more for each call whose own send succeeded and whose flush failed; the buffer stays within 1000 |
| Kafka.ConservedCount | gateway/governance/kafka_observer.py:124-148 | the same in counts |
| Kafka.EveryEventSomewhere | gateway/governance/kafka_observer.py:139 | an event was received exactly when it is published, buffered or pushed out |
| Kafka.RecoveryIff | gateway/governance/kafka_observer.py:132-138 | a call empties the buffer, publishing it in order, exactly when none of its sends fails |
| Kafka.BufferIsInOrder | gateway/governance/kafka_observer.py:140-142 | the buffer is in arrival order, without repetition, and newer than everything pushed out |
| Kafka.EvictsIff | gateway/governance/kafka_observer.py:139-142 | a call pushes a record out exactly when the buffer is full and its own send or the first of its flush fails; it is the oldest, and one only |
| Kafka.OutageEvicts | gateway/governance/kafka_observer.py:139-142 | m calls whose own sends fail push out exactly max(0, buffered + m - 1000) records, oldest first, and publish nothing |
| Kafka.OutageLosesIff | gateway/governance/kafka_observer.py:139-142 | an outage from the start loses records exactly when it is longer than 1000 calls |
| Kafka.OutageLosesRecord | gateway/governance/kafka_observer.py:139-142 | a run in which an event is lost without ever being published |
| Kafka.EvictionNeedsFailures | gateway/governance/kafka_observer.py:140-142 | a record is pushed out only after 1000 more failing calls than records pushed out |
| Bus.ObserverWorker.Submit | gateway/governance/bus.py:41-55 | drop-oldest submission |
| Bus.ObserverWorker.Take | gateway/governance/bus.py:57-60 | the worker takes the oldest |
| Bus.GovernanceBus.Emit | gateway/governance/bus.py:86-88 | one event reaches every worker, each by its own bound |
| Bus.EverythingAccounted | gateway/governance/bus.py:41-60 | the queue is the last events submitted and within its bound; the observer sees an in-order selection of the others |
| Bus.EventsAreCounted | gateway/governance/bus.py:41-60 | submitted = taken + dropped + queued |
| Bus.BurstDrops | gateway/governance/bus.py:41-55 | a burst of m drops exactly max(0, q + m - maxsize) and keeps the latest |
| Bus.UnboundedDropsNothing | gateway/governance/bus.py:13-16 | a maxsize of zero or less drops nothing |
| Bus.WorkersAreIndependent | gateway/governance/bus.py:66-88 | a worker's history depends on its own operations only |
| Chunker.CountMessageTokens | gateway/core/tokens.py:23-30 | the counter's loops add up the messages' costs |
| Chunker.ApplyTruncation | gateway/core/chunker.py:13-34 | the reversed loop keeps the greedy suffix; the info reports counts before and after |
| Chunker.FitsIff | gateway/core/chunker.py:24-29 | the last k messages fit exactly when k is at most the number kept |
| Chunker.TruncationIsOptimal | gateway/core/chunker.py:13-34 | over budget, all system messages then the longest suffix of the others that fits with them |
| Chunker.WithinBudgetIff | gateway/core/chunker.py:13-34 | within budget exactly when the system messages are |
| Chunker.TruncationIsIdempotent | gateway/core/chunker.py:13-34 | applying it again changes no message |
| Chunker.LargerWindowKeepsMore | gateway/core/chunker.py:13-34 | a larger window keeps at least the same suffix |
| Chunker.EveryCallCounts | gateway/core/tokens.py:27-29 | each tool call adds its name's and its arguments' tokens, wherever it stands |
| Chunker.TextCounts | gateway/core/tokens.py:12-26 | a message without calls costs four and the encoding of its text, text parts joined by single blanks |
| Chunker.CallsSentFit | gateway/core/chunker.py:13-34 | when the system messages fit, no tool call sent takes more than the window less 1028 |
| Chunker.Partition | gateway/core/chunker.py:20-21 | the two classes make up the messages, with their costs |
| Pricing.BestKey | gateway/core/pricing.py:104-107 | the scan of one table |
| Pricing.BestIsLongest | gateway/core/pricing.py:104-107 | it finds a longest non-empty contained key, and none exactly when there is none |
| Pricing.SearchTables | gateway/core/pricing.py:103-110 | the first table with a match decides |
| Pricing.Prices.SetOverride | gateway/core/pricing.py:64-65 | from now on the model resolves to the override, whatever the tables hold; no other key changes and the history of writes grows by one |
| Pricing.Prices.ClearOverride | gateway/core/pricing.py:68-69 | the key has no override any more, every other key its price, and the rest keep their order |
| Pricing.Prices.Ingest | gateway/core/pricing.py:32-40 | an entry with a price decides its model, per 1000 tokens, unless that is overridden; one without changes nothing; no other key changes |
| Pricing.Prices.ResolvePrice | gateway/core/pricing.py:88-110 | exact override, exact synced, then the tables in order |
| Pricing.FirstTableLongestKey | gateway/core/pricing.py:88-110 | without an exact key, a longest contained key of the first of override, synced and builtin that has any, and the source says which |
| Pricing.OrderIndependentIff | gateway/core/pricing.py:88-110 | the resolution is independent of the order in which overrides and synced prices were set exactly when a key is exact, or the longest contained keys of the deciding table have one price |
| Pricing.TableOrderIff | gateway/core/pricing.py:104-109 | the same for one table |
| Pricing.OrderDecides | gateway/core/pricing.py:88-110 | two overrides set in either order that price the same model differently |
| Pricing.CaseIsIgnored | gateway/core/pricing.py:64-98 | case makes no difference to the model asked for nor to the key set |
| Pricing.LowerIffSameButCase | gateway/core/pricing.py:98 | two texts are lower-cased alike exactly when they differ in case only |
| Pricing.EmptyKeyIsIgnored | gateway/core/pricing.py:106 | a price under the empty text is for no model but the empty one |
| Pricing.BuiltinNamesPriceThemselves | gateway/core/pricing.py:24-29 | a model named as a built-in key has that key's price, whatever shorter key it contains |
| Pricing.MiniIsNotFull | gateway/core/pricing.py:24-29 | the seven built-in prices |
| Pricing.OverrideOfShorterKey | gateway/core/pricing.py:103-109 | an override for a key shorter than the selected override changes no resolution |
| Pricing.SyncedShorterKey | gateway/core/pricing.py:103-109 | likewise a synced key |
| Pricing.OverridesAreTheLastWrites | gateway/core/pricing.py:64-69 | after any sequence of set and clear each key holds what was last done to it, case folded |
| Pricing.HistoriesAgree | gateway/core/pricing.py:64-110 | two histories that leave every key the same resolve every model alike, if ties agree |
| Pricing.SetAndClear | gateway/core/pricing.py:64-110 | an override decides its model; set anew and cleared it leaves every resolution as it was |

## Left out

- BudgetRuns.BoundedOvershoot: for client, workspace and user scopes with positive caps and an environment that commits rows within 58 s and answers SQL within 1.5 s; the fail-open path on a SQL outage is in the machine (`Fail`) but no bound survives it, so runs that take it are excluded.
- BudgetRuns.SpendReportBound: excludes the per-model scope, whose delta is keyed inconsistently (BudgetModels says what holds of it), and the 30-day cutoff, which only removes spend.
- Budgets.SpendTracker.CheckStart: caps arrive resolved in the request, so the lookup of the client's caps, the substring match of the per-model cap and the 80 % and 100 % alerts are not modelled; the per-model SQL sum is an input.
- Budgets.SpendTracker.CheckFinish: likewise.
- RateLimit.RateLimiter.CheckMultiScope: the wait is unrounded, as in CheckOne and CheckScope.
- RateLimit.RateLimiter.CheckOne: the wait is unrounded.
- RateLimit.RateLimiter.CheckScope: the wait is unrounded.
- RateLimit.Bucket.SecondsUntil: the rounding of the retry value to one decimal, and the whole-second `Retry-After` header (section 10.2.3 of RFC 9110), are not modelled.
- RedisRuns.WindowSafety: assumes that each command for a minute reaches the server within 90 s of the minute's start; errors are modelled and let a request through as in the code, so the count of requests let through is of those without an error.
- RedisLimiter.BumpsAreTheLimits: the retry value of a refusal is not part of the verdict.
- Fallback.Execute: effective timeouts, credentials, backoff sleeps and latencies are not modelled; an empty target list, on which the code raises, is modelled as no result.
- Fallback.CallOnce: the effective timeout, credentials and the latency of a call are not modelled.
- FallbackRuns.Reorder: the random choice is an input; the rest of target resolution and the timeout clamp would add only easy members.
- FallbackRuns.DeadProviderLoad: executions run one at a time; with concurrent ones more calls can be in flight when the breaker opens.
- FallbackRuns.SuccessIgnoresThePick: engine outcomes are fixed per target and attempt, and breakers are asked with the same answer in both orders.
- AnthropicRuns.StreamingRefinesNonStreaming: the prompt-cache counts differ in form between the two and are not compared; provider errors and HTTP failures that end a stream early are not modelled.
- AnthropicRuns.AssistantTurnSurvives: ids must be non-empty, because a missing one is made up anew.
- Anthropic.ChatStream: an HTTP error or an exception that ends the stream early is not modelled.
- Gemini.ChatStream: likewise.
- Bedrock.ChatStream: the worker thread, its queue and the error event are not modelled.
- Gemini.ToGemini: the conversation-level rule that only the last system text is kept is not modelled, nor tool-result references, which Gemini makes by name.
- Kafka.KafkaObserver.OnEvent: the fields of the envelope are not modelled; a send that raises after Kafka stored the record counts as failed.
- Bus.ObserverWorker.Take: the worker's waiting, cancellation and drain are not modelled; a failing observer does not stop the loop, so its outcome is no part of the state.
- Pricing.Prices.ResolvePrice: costs per request are not computed, because their rounding to eight decimals is the only content beyond a sum of two products; lower-casing is ASCII only; reloading all overrides from the database is left out.
- Chunker.CountMessageTokens: the tokenizer is a given function of a text.
- The thinking block, tool and tool-choice translation and request parameters of the three adapters, which would only add easy members.
- The legacy single-scope checks of both limiters, the guardrail engine, routing, HTTP, drivers, admin endpoints and the user interface.
- Floating point: sums, refills and prices are exact reals.
