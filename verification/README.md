# Verified model of the banking agent backend's core protocols

The backend is mostly plumbing around Redis, Postgres and model providers. Inside it sit a dozen small
protocols and state machines whose guarantees are decided by the code alone. This project models each of
them in Dafny, one module per source file or component, and proves what it guarantees over all runs, all
interleavings and all inputs.

| module | models |
|---|---|
| `RefreshFamily` | rotation, verification and revocation of a refresh-token family under WATCH/MULTI/EXEC, any number of processes |
| `RefreshToken` | the signed token string: signing, parsing, checking |
| `TokenBucket`, `SlidingWindow`, `Admission`, `RateLimiterClient` | the two Lua scripts of the rate limiter, runs of requests, and the `aacquire` loop |
| `Sse` | the chunk-fed event-stream reader of the front end |
| `CanonicalJson`, `ToolGraph` | the dedupe key, the tool node, the transport wrapper and whole runs of the tool-calling graph |
| `TotpLockout` | concurrent TOTP verifiers, the failure counter and the lock marker |
| `ShadowQueue`, `ShadowWorker`, `ShadowRuns`, `ShadowOrder`, `ShadowPoll` | the shadow-trace queue, the judge worker, interleaved runs of many workers, their order, and why a poll is one of their schedules |
| `GroqRotator` | slot claims on a shared counter, and cooling keys |
| `CostLedger` | the cost ledger of a session, its history and the summary over sessions |
| `TorCache` | the Tor list with its cache of negative answers |
| `IpWindow` | the sorted-set window of addresses, the pinned fingerprint and the decision |
| `EventCompressor` | compression of trace events |

Code that changes an object or a Redis key step by step is a class whose methods are proved against a
function of the old state; the theorems are lemmas about these functions. Protocols with interleaving are
state machines with one step for each Redis command. Conventions: `Exec`, `Run`, `After` and the like give
the state after a sequence of steps; a step that is not enabled changes nothing; a name ending in `Exactly`
marks a lemma that says when a promise of the code holds, in both directions. `Options` and `Arithmetic`
hold shared helpers.

## Where the code and its description differ

The model follows the code in each case.

- Sliding window: the module's description (`rate_limiter.py:6`, `:114`) promises no burst at a window boundary.
  `SlidingWindow.NoBoundaryBurstExactly` shows that this holds for all runs exactly when the window is one second,
  that is for rates above 30, and `DoubleBurstExactly` when twice the limit is possible; `IntervalBound` and
  `BoundIsAttained` give the true bound, which is tight. For windows longer than a second an admitted request can be
  told that -1 requests remain (`MinusOneIsToldExactly`).
- Token bucket: the "cleanup" expiry after an hour hands out a fresh burst unless an idle hour refills the bucket
  anyway (`ExpiryIsUnobservableExactly`, `ScriptKeepsTheBoundExactly`); `AdmissionBound` and `BoundIsAttained` give
  the tight bound for all limiters. The default burst `int(rate)` is 0 for rates below one, and such a limiter
  refuses every request (`DefaultBurstAdmitsExactly`).
- TOTP: the comment on the WATCH promises that no failure is counted past the lock transition. The lock is set
  after the EXEC, so with n calls in flight up to 4 + n failures are counted (`ConcurrentFailureBound`,
  `BoundIsAttained`, `FiveStrikesExactly`). A success that overlaps with failures can leave five live failures without a
  lock (`LockedAtRestExactly`).
- Refresh tokens: of n concurrent rotations with one valid token exactly one succeeds, as promised, but its new
  token is dead on arrival because each loser revokes the family (`RaceHasExactlyOneWinner`). A revocation that
  hits an expired family leaves a hash without a TTL (`TtlIsLostExactlyByLateRevocation`). A token whose last field is
  not ASCII raises a TypeError instead of being refused (`RefreshToken.RaisesExactly`).
- Tool deduplication: the key is taken of the arguments that the model emits, before the argument schema drops or
  converts some and the wrapper overwrites `session_id`, so two calls that differ only there both reach the server
  (`ServerSeesNoRepeatExactly`, `IndistinctCallsReachTheServerTwice`, `IgnoredArgumentDefeatsTheKey`).
- Cost ledger: `get_history` with a limit of 0 returns everything (`LimitIsKeptExactly`); with negative costs the
  total can differ from the sum over the models (`ModelsAgreeExactly`, `NegativeCostsCanDisagree`); the summary
  omits sessions whose id looks like a history key (`SkippedExactly`).
- Shadow worker: without a database the rows of a batch are dropped although the poll reports them as processed
  (`ShadowWorker.Settle`); `ShadowRuns.NothingIsDroppedExactly` says when that happens.

## Model

| member | source | states |
|---|---|---|
| `RefreshFamily.RunsKeepInv` | backend/src/agent_service/security/admin_jwt.py:293-413 | every interleaving of rotations, verifications, revocations and the expiry keeps the invariant: exchanges form one line, the current id is its tip, a snapshot that is still current saw a live family |
| `RefreshFamily.EachTokenExchangedAtMostOnce` | backend/src/agent_service/security/admin_jwt.py:350-396 | in every run each token id is exchanged at most once, and each exchange spends what the one before minted |
| `RefreshFamily.DeadIsForever` | backend/src/agent_service/security/admin_jwt.py:353-389 | once the family is revoked or expired it stays so and no rotation commits any more, those past their checks included |
| `RefreshFamily.OnlyTheNewestIsAccepted` | backend/src/agent_service/security/admin_jwt.py:301-329 | in every reachable state a verification run alone succeeds if and only if the family is alive and the token is the newest id; never for one already exchanged |
| `RefreshFamily.VerifyAnswersWhatItFound` | backend/src/agent_service/security/admin_jwt.py:293-329 | from every reachable state and whatever runs meanwhile, a verification answers what its read found: verified if and only if the family was alive and the token the newest, a replay with the family dead for any other token of a live family, invalid for a dead one; one more step of its own ends it |
| `RefreshFamily.RotateAnswersWhatItFound` | backend/src/agent_service/security/admin_jwt.py:350-396 | the same for a rotation: invalid for a dead family, a replay with the family dead for a token that is not the newest, and for the newest one either its exchange is committed or the family is dead |
| `RefreshFamily.LoneRotationSucceeds` | backend/src/agent_service/security/admin_jwt.py:332-396 | with nothing in between, the newest token of a live family is exchanged for a fresh id, which is the newest from then on, and the family stays alive with its TTL |
| `RefreshFamily.OperationsEnd` | backend/src/agent_service/security/admin_jwt.py:293-413 | whatever else runs, a rotation ends within five steps of its own, a verification within two and a revocation within one, and an answer once given stays |
| `RefreshFamily.SecondRotationKillsTheFamily` | backend/src/agent_service/security/admin_jwt.py:362-396 | once two rotations presenting the same token have finished, the family is revoked or expired |
| `RefreshFamily.RaceHasExactlyOneWinner` | backend/src/agent_service/security/admin_jwt.py:338-343 | any number of rotations racing with the same valid token: exactly one succeeds in every schedule, and with two or more the family is then dead |
| `RefreshFamily.ReachableRotationsEndRotatedOrRefused` | backend/src/agent_service/security/admin_jwt.py:332-396 | a rotation ends as rotated, invalid or replay, a verification as verified, invalid or replay, and a revocation as done |
| `RefreshFamily.TtlIsLostExactlyByLateRevocation` | backend/src/agent_service/security/admin_jwt.py:309-310 | a run leaves a hash that never expires if and only if some HSET of revoked in it, by revoke, by a replay found in verify or by a rotation, came after the family had expired |
| `RefreshFamily.LateRevocationIsPossible` | backend/src/agent_service/security/admin_jwt.py:410-413 | from every reachable state the expiry and a revocation lead to such a hash, and nothing leads back |
| `RefreshFamily.ReissueRevives` | backend/src/agent_service/security/admin_jwt.py:257-281 | in every state, issuing into the existing family id makes the family alive and its new id accepted, so runs issue fresh families only |
| `RefreshToken.AcceptedExactlyWhenSigned` | backend/src/agent_service/security/admin_jwt.py:215-254 | for any text: parsing and the HMAC check yield (family, token) if and only if the text is what signing these non-empty ids produces |
| `RefreshToken.SignIsInjective` | backend/src/agent_service/security/admin_jwt.py:215-230 | different ids never share a token string |
| `RefreshToken.ParseJoined` | backend/src/agent_service/security/admin_jwt.py:233-246 | parsing inverts joining for dot-free ids, even when the last field contains dots |
| `RefreshToken.JoinParsed` | backend/src/agent_service/security/admin_jwt.py:241-246 | what is parsed joins back to the text, with no field empty and no dot in the ids |
| `RefreshToken.RaisesExactly` | backend/src/agent_service/security/admin_jwt.py:249-254 | the comparison raises, instead of refusing the token, exactly for well-formed texts whose last field is not ASCII |
| `Admission.DeniedRequestsAreInvisible` | backend/src/agent_service/core/rate_limiter.py:140-149 | for any admission rule whose denials keep the state: deleting any denied requests from a run changes no other decision |
| `TokenBucket.BucketKey.Eval` | backend/src/agent_service/core/rate_limiter.py:155-193 | one run of the script, field by field, is the step of the specification, replies included |
| `TokenBucket.AdmissionBound` | backend/src/agent_service/core/rate_limiter.py:163-192 | in any run of any limiter with a monotone clock an interval of length d gets at most max_burst + rate * d admissions, and a bonus of max_burst - 3600 * rate for each whole hour where the expiry gives bursts away |
| `TokenBucket.BoundIsAttained` | backend/src/agent_service/core/rate_limiter.py:163-192 | for every limiter that admits anything and every d some run gets the whole part of that bound |
| `TokenBucket.AdmissionsArePaid` | backend/src/agent_service/core/rate_limiter.py:172-182 | from any reachable bucket of any limiter, admissions are at most the tokens on hand, the refill, and the bonus for each expiry that can still come |
| `TokenBucket.ExpiryIsUnobservableExactly` | backend/src/agent_service/core/rate_limiter.py:182 | the one-hour expiry changes no decision of any run if and only if 3600 * rate >= max_burst |
| `TokenBucket.ScriptKeepsTheBoundExactly` | backend/src/agent_service/core/rate_limiter.py:163-192 | the script keeps the burst-plus-rate bound in all runs if and only if 3600 * rate >= max_burst |
| `TokenBucket.DeniedRequestsLeaveNoTrace` | backend/src/agent_service/core/rate_limiter.py:187-192 | dropping any denied requests from a run leaves every other decision as it was |
| `TokenBucket.RetryAfterIsExact` | backend/src/agent_service/core/rate_limiter.py:189-191 | with max_burst >= 1 and no admission in between, a retry after a whole number of seconds is admitted if and only if it waits at least retry_after or the key has expired; where the expiry gives nothing away only the former |
| `TokenBucket.RemainingIsExact` | backend/src/agent_service/core/rate_limiter.py:179-185 | an admission is told exactly how many more requests the same instant admits |
| `TokenBucket.ResetAtIsExact` | backend/src/agent_service/core/rate_limiter.py:179-185 | reset_at of an admission is the first whole second after it from which the bucket is full again if nothing is admitted meanwhile, the expiry aside |
| `TokenBucket.DenialReplies` | backend/src/agent_service/core/rate_limiter.py:187-192 | a denial is told that nothing remains and that the limit resets when the retry may come |
| `TokenBucket.BurstMeans` | backend/src/agent_service/core/rate_limiter.py:94 | at its first instant a limiter admits exactly as many requests as the given burst, or when none or 0 is given as the rate has whole requests a second |
| `TokenBucket.DefaultBurstAdmitsExactly` | backend/src/agent_service/core/rate_limiter.py:94 | with the default burst some request is ever admitted if and only if the rate is at least 1 |
| `SlidingWindow.LimitBounds` | backend/src/agent_service/core/rate_limiter.py:92 | limit / window never exceeds the rate and loses less than one request a window; the limit is at least 30 for every positive rate |
| `SlidingWindow.WindowIsLongest` | backend/src/agent_service/core/rate_limiter.py:92 | for rates up to 60 the window is the longest of whole seconds with at most 60 requests at the rate; above that one second |
| `SlidingWindow.OneSecondWindowExactly` | backend/src/agent_service/core/rate_limiter.py:92 | the window is one second if and only if the rate is above 30 |
| `SlidingWindow.WindowKeys.Eval` | backend/src/agent_service/core/rate_limiter.py:121-153 | one run of the script decides and counts as the specification does; reset_at is the end of the current window and remaining the whole requests left |
| `SlidingWindow.ReplyMeans` | backend/src/agent_service/core/rate_limiter.py:140-153 | reset_at lies within one window after the request; remaining is at least -1, and -1 exactly when a request is admitted with the weighted count less than one below the limit |
| `SlidingWindow.RemainingIsExactForWholeCounts` | backend/src/agent_service/core/rate_limiter.py:137-153 | after an admission the same instant admits as many more requests as the reply says remain, and one more exactly when the weighted count is not whole |
| `SlidingWindow.MinusOneIsToldExactly` | backend/src/agent_service/core/rate_limiter.py:151 | some request of some run is admitted and told -1 if and only if the limit is positive and the window longer than a second |
| `SlidingWindow.WeightedAgainstLimit` | backend/src/agent_service/core/rate_limiter.py:133-140 | the weighted count reaches the limit exactly when the scaled whole-number comparison holds |
| `SlidingWindow.GetReadsTheLog` | backend/src/agent_service/core/rate_limiter.py:129-131 | the expiry of twice the window never drops a count that is still read |
| `SlidingWindow.RunsAreLawful` | backend/src/agent_service/core/rate_limiter.py:121-153 | counters, keys and expiry implement the rule put to the log of admissions itself, for every monotone run |
| `SlidingWindow.LawfulLogsAreRuns` | backend/src/agent_service/core/rate_limiter.py:121-153 | conversely every log that obeys the rule is the log of a run |
| `SlidingWindow.DeniedRequestsLeaveNoTrace` | backend/src/agent_service/core/rate_limiter.py:140-146 | dropping any denied requests from a run leaves every other decision as it was |
| `SlidingWindow.WindowCap` | backend/src/agent_service/core/rate_limiter.py:140-151 | a window never gets more than the limit |
| `SlidingWindow.IntervalBound` | backend/src/agent_service/core/rate_limiter.py:195-205 | an interval of one window's length gets at most the limit if none falls in the next window, else fewer than limit + 1 + limit * (offset - 1) / size, and never more than twice the limit |
| `SlidingWindow.BoundIsAttained` | backend/src/agent_service/core/rate_limiter.py:121-153 | for every offset from 2 on some run reaches the bound, so it is the best possible |
| `SlidingWindow.NoBoundaryBurstExactly` | backend/src/agent_service/core/rate_limiter.py:6 | no burst beyond the limit at a window boundary, in all runs, if and only if the window is one second |
| `SlidingWindow.DoubleBurstExactly` | backend/src/agent_service/core/rate_limiter.py:114 | twice the limit within one window's length is possible if and only if the window has more seconds than the limit has requests |
| `RateLimiterClient.Limiter.AAcquire` | backend/src/agent_service/core/rate_limiter.py:211-263 | all round trips but the last are denials; the last decides; when a call gives up, how often it can ask, fail-open and fail-closed, and one metric counted |
| `RateLimiterClient.SleepOnce` | backend/src/agent_service/core/rate_limiter.py:239-250 | sleeps stay within the minute and within 60 * max(1, rate) of them |
| `RateLimiterClient.SleepMeans` | backend/src/agent_service/core/rate_limiter.py:239-241 | the sleep is a second after a denial that names seconds to wait or at rates up to 1, else 1 / rate |
| `Sse.NameLineMeans` | Agent UI and Admin Console/src/shared/api/sse.ts:64-67 | an event: line with a non-empty trimmed name is read as that name |
| `Sse.DataLineMeans` | Agent UI and Admin Console/src/shared/api/sse.ts:69-74 | a data: line with one space is read as its data, further spaces intact, without a final carriage return |
| `Sse.Reader.HandleLine` | Agent UI and Admin Console/src/shared/api/sse.ts:53-74 | one line changes the reader's variables as one step of the specification, whose reading of lines the next rows fix |
| `Sse.CommentsAreInvisible` | Agent UI and Admin Console/src/shared/api/sse.ts:62 | anywhere in a stream a line that begins with a colon changes nothing |
| `Sse.OtherLinesAreInvisible` | Agent UI and Admin Console/src/shared/api/sse.ts:62-75 | nor does any other line that is neither blank nor an event: or data: field |
| `Sse.TheSpaceIsOptional` | Agent UI and Admin Console/src/shared/api/sse.ts:69-74 | anywhere in a stream data: with and without the space mean the same, all text of the latter kept |
| `Sse.EventLineMeans` | Agent UI and Admin Console/src/shared/api/sse.ts:64-67 | an event: line names the event by its trimmed rest, "message" when nothing is left |
| `Sse.AnEmptyNameIsMessage` | Agent UI and Admin Console/src/shared/api/sse.ts:65 | anywhere in a stream an empty name stands for "message" |
| `Sse.TheFirstNameIsMessage` | Agent UI and Admin Console/src/shared/api/sse.ts:29 | the name is "message" at the start of the stream |
| `Sse.TheNextNameIsMessage` | Agent UI and Admin Console/src/shared/api/sse.ts:36 | and again after every delivery, whatever came before |
| `Sse.AnIdleBlankLineIsInvisible` | Agent UI and Admin Console/src/shared/api/sse.ts:32-33 | a blank line with no data since the one before changes nothing: a name survives it |
| `Sse.LinesMayEndInCRLF` | Agent UI and Admin Console/src/shared/api/sse.ts:53-55 | anywhere in a stream a line may end in CR LF as well |
| `Sse.TheLastEventIsDelivered` | Agent UI and Admin Console/src/shared/api/sse.ts:78 | an event that is unfinished at the end of the stream is delivered as if a blank line came |
| `Sse.AnUnfinishedLineIsDropped` | Agent UI and Admin Console/src/shared/api/sse.ts:47-48 | a last line without a line feed is dropped |
| `Sse.Reader.FlushEvent` | Agent UI and Admin Console/src/shared/api/sse.ts:32-38 | an event is delivered and name and lines reset, only if there is data |
| `Sse.Reader.Feed` | Agent UI and Admin Console/src/shared/api/sse.ts:44-75 | whatever text follows, the rest of the parse is what it would have been; no line feed stays in the buffer |
| `Sse.Reader.StreamSse` | Agent UI and Admin Console/src/shared/api/sse.ts:40-78 | however the text is cut into chunks, the events are those of the one-shot parse |
| `Sse.RoundTripExactly` | Agent UI and Admin Console/src/shared/api/sse.ts:53-74 | printing events and parsing them returns them if and only if every name is non-empty, trimmed and on one line and no line of data ends in a carriage return |
| `Sse.ParsePrinted` | Agent UI and Admin Console/src/shared/api/sse.ts:64-74 | with such names, parsing the printed text loses carriage returns at line ends and nothing else, leading spaces included |
| `Sse.DataSurvivesExactly` | Agent UI and Admin Console/src/shared/api/sse.ts:53-55 | data survives if and only if none of its lines ends in a carriage return |
| `Sse.ParsedNamesArePrintable` | Agent UI and Admin Console/src/shared/api/sse.ts:64-67 | every event name ever delivered is non-empty, trimmed and on one line |
| `CanonicalJson.SortedIsInOrder` | backend/src/agent_service/tools/tool_execution_policy.py:38 | the printed member names are the keys, each once, in code-point order |
| `CanonicalJson.PrintIsInjective` | backend/src/agent_service/tools/tool_execution_policy.py:36-41 | two JSON values print alike if and only if they are equal, member order aside |
| `CanonicalJson.Decode` | backend/src/agent_service/tools/tool_execution_policy.py:38 | a printed value followed by a delimiter determines the value and what follows |
| `CanonicalJson.MemberOrderIsInvisible` | backend/src/agent_service/tools/tool_execution_policy.py:38 | dictionaries filled in different orders print alike |
| `CanonicalJson.DedupeKeyIsExact` | backend/src/agent_service/tools/tool_execution_policy.py:16-41 | calls of policy-listed tools share the key if and only if tool and arguments are equal as JSON values |
| `ToolGraph.ToolArgs` | backend/src/agent_service/core/recursive_rag_graph.py:70-72 | arguments are always an object, falsy ones empty, others wrapped |
| `ToolGraph.CallId` | backend/src/agent_service/core/recursive_rag_graph.py:73 | the id of the tool message: the id of the call if there is one, else its name, else "tool-call" |
| `ToolGraph.McpManager.ToolWrapper` | backend/src/agent_service/tools/mcp_manager.py:134-167 | the reply and the requests that reach the server are those of the specification, whose replies the next row fixes |
| `ToolGraph.ReplyOfInvocation` | backend/src/agent_service/tools/mcp_manager.py:134-176 | the reply told from what reached the server: after two requests the answer to the second, after one its success or, for side effects, its failure, else why the reconnect did not help, after none the refusal of the schema |
| `ToolGraph.AttemptsPerInvocation` | backend/src/agent_service/tools/mcp_manager.py:134-176 | arguments that the schema refuses never reach the server; others of a side-effecting tool reach it exactly once; those of another tool twice if and only if the first attempt failed and the reconnect found the tool |
| `ToolGraph.DedupToolNode.InvokeTool` | backend/src/agent_service/core/recursive_rag_graph.py:124-146 | result, cache and server log after one executed call, failures cached too |
| `ToolGraph.AnswerOfCall` | backend/src/agent_service/core/recursive_rag_graph.py:76-146 | a call is answered that there is no such tool, with the result kept from an equal call, or with the text of the reply or its error under the tool's name; only the last adds to the log, and its answer is kept if and only if the tool has side effects |
| `ToolGraph.DedupToolNode.Call` | backend/src/agent_service/core/recursive_rag_graph.py:55-99 | the messages, cache and server log after one visit, one tool message per call in order |
| `ToolGraph.EveryCallIsAnswered` | backend/src/agent_service/core/recursive_rag_graph.py:170-208 | whatever the model emits: all AI messages but the last have each call answered once, in order; at most max_iterations tool rounds and one more model step; unanswered calls only when rounds are used up |
| `ToolGraph.SideEffectsHappenOnce` | backend/src/agent_service/core/recursive_rag_graph.py:86-89 | over a whole run, for any schema, the side-effecting requests at the server are those of the first calls of their kind that the schema lets through, each once, in order |
| `ToolGraph.FirstCallsRepresent` | backend/src/agent_service/core/recursive_rag_graph.py:101-122 | these first calls are pairwise different and stand for every call that has side effects |
| `ToolGraph.DuplicatesShareTheResult` | backend/src/agent_service/core/recursive_rag_graph.py:114-121 | all calls of a side-effecting tool with the same arguments get the same result |
| `ToolGraph.EveryAnswerIsTheTools` | backend/src/agent_service/core/recursive_rag_graph.py:76-99 | over a whole run every call of a known tool is answered with the outcome of attempts for that call or one equal to it, which are in the server's log; every other call is told that there is no such tool |
| `ToolGraph.ServerSeesNoRepeatExactly` | backend/src/agent_service/tools/mcp_manager.py:87-111 | the server never receives a side-effecting request twice if and only if no two answered calls differ only in what the schema and the session id erase |
| `ToolGraph.IndistinctCallsReachTheServerTwice` | backend/src/agent_service/tools/mcp_manager.py:134-139 | every such pair of calls makes a run in which the server gets the same side-effecting request twice |
| `ToolGraph.IgnoredArgumentDefeatsTheKey` | backend/src/agent_service/tools/mcp_manager.py:93-94 | for every side-effecting tool a call and the same call with an argument that the schema ignores, session_id included, are such a pair |
| `TotpLockout.RunsKeepInv` | backend/src/agent_service/security/admin_totp.py:63-112 | in every run the counter expires long before the marker beside it, and a watched version that is current saw no marker |
| `TotpLockout.NothingIsCountedUnderLock` | backend/src/agent_service/security/admin_totp.py:89-105 | in every run of verifications, resets and passing time no failure is counted while the marker exists |
| `TotpLockout.CountedExactlyWhenNeverMarked` | backend/src/agent_service/security/admin_totp.py:89-105 | whatever others do around WATCH, second check and EXEC, the failure is counted if and only if the marker existed at no moment of it; otherwise the call is told that the account is locked |
| `TotpLockout.AnswersMean` | backend/src/agent_service/security/admin_totp.py:63-118 | in every interleaving a call ends within four steps after its check of the marker and succeeds if and only if its code is right and there was no marker at that check |
| `TotpLockout.RightCodeClears` | backend/src/agent_service/security/admin_totp.py:71-74 | without a marker a right code clears the counter, whatever it stood at, and changes nothing else |
| `TotpLockout.ResetClears` | backend/src/agent_service/security/admin_totp.py:115-118 | in every state a reset clears counter and marker |
| `TotpLockout.FiveMoreAfterClearing` | backend/src/agent_service/security/admin_totp.py:71-110 | after a success or a reset, from any number of failures, it takes five wrong codes again |
| `TotpLockout.LockedCallChangesNothing` | backend/src/agent_service/security/admin_totp.py:63-65 | under the marker a call is told so, right code or wrong, and changes nothing |
| `TotpLockout.WrongCodeCounts` | backend/src/agent_service/security/admin_totp.py:89-112 | a lone wrong code counts one failure, kept for 300 seconds from then on; from the fifth on it locks the account for 900 seconds and is told so |
| `TotpLockout.TheFifthLocks` | backend/src/agent_service/security/admin_totp.py:107-112 | whatever others do after it, a counted failure from the fifth on locks the account for 900 seconds from the call's next step |
| `TotpLockout.CounterIsGoneWhenTheMarkerExpires` | backend/src/agent_service/security/admin_totp.py:35-37 | when the marker expires the counter has expired before it |
| `TotpLockout.FiveFreshAttempts` | backend/src/agent_service/security/admin_totp.py:98-110 | from a state without counter and marker the first four wrong codes are told so and leave it unlocked, the fifth locks it and is told so, whatever other calls wait |
| `TotpLockout.ConcurrentFailureBound` | backend/src/agent_service/security/admin_totp.py:89-110 | with n calls in flight, wrong codes get at most 4 + n failures counted before any TTL fires, however much time passes |
| `TotpLockout.BoundIsAttained` | backend/src/agent_service/security/admin_totp.py:107-110 | for every n some run gets 4 + n failures counted |
| `TotpLockout.FiveStrikesExactly` | backend/src/agent_service/security/admin_totp.py:78-88 | in all such runs no failure past the fifth is counted if and only if calls do not overlap |
| `TotpLockout.LockedWhenAtRest` | backend/src/agent_service/security/admin_totp.py:107-110 | with wrong codes only, an account at rest with five live failures is locked, whatever time passed |
| `TotpLockout.RightCodeCanUnlock` | backend/src/agent_service/security/admin_totp.py:71-74 | a right code in flight can leave five live failures unlocked, because its second delete comes late |
| `TotpLockout.LockedAtRestExactly` | backend/src/agent_service/security/admin_totp.py:63-118 | over all runs, with right codes, resets and time, an account at rest with five live failures is always locked if and only if calls do not overlap |
| `ShadowQueue.RedisTraceQueue.EnqueueTrace` | backend/src/agent_service/eval_store/shadow_queue.py:55-80 | the new item is pushed and the list cut to its newest maxlen entries |
| `ShadowQueue.Trim` | backend/src/agent_service/eval_store/shadow_queue.py:78-79 | after the LTRIM the newest entries are left, all of them or exactly maxlen |
| `ShadowQueue.RedisTraceQueue.PopBatch` | backend/src/agent_service/eval_store/shadow_queue.py:82-105 | the oldest entries leave, at most the limit, and the well-formed ones come back oldest first |
| `ShadowQueue.RedisTraceQueue.RequeueOrDeadLetterBatch` | backend/src/agent_service/eval_store/shadow_queue.py:119-151 | each failed item is pushed once, to the queue or the dead-letter list, both are cut, and the two counts add up to the batch |
| `ShadowQueue.EachFailedItemGoesItsWay` | backend/src/agent_service/eval_store/shadow_queue.py:131-143 | whatever the rest of the batch, an item with one retry more goes back, in its order, while that is at most max_retries, and is given up otherwise |
| `ShadowQueue.PushesComeBackInOrder` | backend/src/agent_service/eval_store/shadow_queue.py:77-105 | items pushed one after the other, with nothing cut off or popped between, come back in that order after all that waited before |
| `ShadowOrder.PopsAreFirstInFirstOut` | backend/src/agent_service/eval_store/shadow_queue.py:77-105 | in every interleaved run, with trimming and failed batches going back, each pop yields an entry pushed later than all popped before and earlier than all that wait, and every entry pushed was popped, cut off or waits |
| `ShadowOrder.PopTakesTheOldest` | backend/src/agent_service/eval_store/shadow_queue.py:88-103 | in every run, the entry that a pop hands to its worker is the oldest one waiting |
| `ShadowOrder.WithoutTrimsPopsArePushes` | backend/src/agent_service/eval_store/shadow_queue.py:78-79 | without a bound on the list the pops are the pushes, in their order, from the first on |
| `ShadowQueue.RetriesAreBounded` | backend/src/agent_service/eval_store/shadow_queue.py:131-143 | of a failed batch, requeued items have at most max_retries retries and dead letters exactly one more |
| `ShadowWorker.Coerce` | backend/src/agent_service/worker/shadow_judge_worker.py:74-79 | scores between 0 and 1 are kept, larger ones become 1, smaller ones and what is no number 0 |
| `ShadowWorker.MatchRows` | backend/src/agent_service/worker/shadow_judge_worker.py:172-200 | one row for each item in order, field by field: each score is that of the same name in the last entry with its trace id, clamped, with that entry's summary and the model that answered; without one zero scores, the fallback summary and the primary model |
| `ShadowWorker.LastEntryWins` | backend/src/agent_service/worker/shadow_judge_worker.py:172-178 | of several entries with one trace id the last one counts |
| `ShadowWorker.NoEntryMeansDefault` | backend/src/agent_service/worker/shadow_judge_worker.py:181-186 | an item gets a default row if and only if it has no trace id or no entry names it |
| `ShadowWorker.EvaluateBatch` | backend/src/agent_service/worker/shadow_judge_worker.py:202-229 | primary model, then fallback; default rows on a 4xx of the fallback; otherwise raised |
| `ShadowWorker.EvaluateMeans` | backend/src/agent_service/worker/shadow_judge_worker.py:202-229 | the same of the whole batch for the model that answered; zero scores and the status after a 4xx of the fallback; no rows if and only if the fallback fails in another way |
| `ShadowWorker.EveryItemGetsItsRow` | backend/src/agent_service/worker/shadow_judge_worker.py:180-229 | whatever the judge answers, a batch is raised as a whole or every item gets exactly one row with its own trace id and scores between 0 and 1 |
| `ShadowWorker.ShadowJudgeWorker.MirrorIntoEvalResults` | backend/src/agent_service/worker/shadow_judge_worker.py:252-295 | three rows for each row with a trace id are inserted where their key is free; a failed write changes nothing |
| `ShadowWorker.MirroredScores` | backend/src/agent_service/worker/shadow_judge_worker.py:262-289 | a key that was free holds the score of its metric from the first row for its trace, passed from 0.7 on, and stays free when no row is for it |
| `ShadowWorker.ShadowJudgeWorker.PersistRows` | backend/src/agent_service/worker/shadow_judge_worker.py:231-250 | rows are appended and mirrored, or nothing is written, and without a database silently nothing |
| `ShadowWorker.ShadowJudgeWorker.ProcessOnce` | backend/src/agent_service/worker/shadow_judge_worker.py:297-322 | queue, dead letters, rows and mirror after one poll |
| `ShadowWorker.PollWritesAllOrNothing` | backend/src/agent_service/worker/shadow_judge_worker.py:231-250 | a poll raises if and only if popped items could not be judged or their rows not written, and then writes no row; otherwise there is one more row for each item, in order, if there is a database |
| `ShadowWorker.MirrorKeyIsInjective` | backend/src/agent_service/worker/shadow_judge_worker.py:276 | a mirror key names its trace and metric, whatever characters the trace id has |
| `ShadowWorker.AtMostThreeRows` | backend/src/agent_service/worker/shadow_judge_worker.py:41-49 | however often a trace is judged, the mirror holds at most three rows for it |
| `ShadowWorker.FirstScoreStays` | backend/src/agent_service/worker/shadow_judge_worker.py:43-49 | the first score mirrored for a trace and metric is never replaced |
| `ShadowWorker.EveryParamIsMirrored` | backend/src/agent_service/worker/shadow_judge_worker.py:271-289 | after the insert every row asked for has its key taken |
| `ShadowWorker.MirroringAgainChangesNothing` | backend/src/agent_service/worker/shadow_judge_worker.py:41-49 | inserting rows whose keys are all taken changes nothing |
| `ShadowWorker.PollShrinksBacklog` | backend/src/agent_service/worker/shadow_judge_worker.py:297-322 | for any behaviour of judge and database, a poll of a non-empty queue makes the sum of the retries left smaller |
| `ShadowWorker.TheQueueDrains` | backend/src/agent_service/worker/shadow_judge_worker.py:341-350 | with nothing enqueued meanwhile the queue is empty after as many polls as the backlog counts |
| `ShadowRuns.StepBalance` | backend/src/agent_service/eval_store/shadow_queue.py:55-151 | any weight of items that a judging raises alike wherever they go is conserved by every step |
| `ShadowRuns.EveryItemIsInOnePlace` | backend/src/agent_service/worker/shadow_judge_worker.py:297-322 | with any number of workers and any interleaving, every enqueued item is at all times in exactly one of pending, held by one worker, dead letters, trimmed, persisted or dropped |
| `ShadowRuns.NothingIsDroppedExactly` | backend/src/agent_service/worker/shadow_judge_worker.py:231-233 | no item is dropped in any run if and only if there is a database or no worker that ever takes an item |
| `ShadowRuns.RetriesCountJudgings` | backend/src/agent_service/eval_store/shadow_queue.py:131-136 | the retries on an item, wherever it is, are the judgings it has had |
| `ShadowRuns.RunsKeepRetries` | backend/src/agent_service/eval_store/shadow_queue.py:131-143 | in every run waiting items have at most max_retries retries and dead letters exactly max_retries + 1 |
| `ShadowRuns.JudgedABoundedNumberOfTimes` | backend/src/agent_service/worker/shadow_judge_worker.py:297-322 | in every run each item is judged at most max_retries + 1 times |
| `ShadowPoll.PollIsASchedule` | backend/src/agent_service/worker/shadow_judge_worker.py:297-322 | from any state, an idle worker taking the steps of a poll alone leaves exactly the queue and dead letters of the poll proved of `process_once` |
| `GroqRotator.Rotator.NextGroqKey` | backend/src/agent_service/llm/groq_rotator.py:68-99 | the key, the error for an empty list, the fast path for one key, and the one slot claimed otherwise |
| `GroqRotator.Rotator.NextGroqKeys` | backend/src/agent_service/llm/groq_rotator.py:102-129 | n consecutive slots from one claim and their keys; nothing for n <= 0, the error for an empty list, repetition for one key |
| `GroqRotator.CoolingKeysAreSkipped` | backend/src/agent_service/llm/groq_rotator.py:88-99 | a claim returns the first key that its probe found warm, or its slot's key when every probe said cooling |
| `GroqRotator.ProbesGoRound` | backend/src/agent_service/llm/groq_rotator.py:88-92 | the probes begin at the claimed slot and go round the keys one by one |
| `GroqRotator.ProbesReachEveryKey` | backend/src/agent_service/llm/groq_rotator.py:88-92 | the probes of one claim reach every position exactly once |
| `GroqRotator.SlotsArePartitioned` | backend/src/agent_service/llm/groq_rotator.py:84 | for any interleaving of single and wide claims, every slot below the counter is claimed exactly once |
| `GroqRotator.UsedAreTheSlots` | backend/src/agent_service/llm/groq_rotator.py:127-129 | the positions that the claims get are those of the slots, in order |
| `GroqRotator.ClaimsAreFair` | backend/src/agent_service/llm/groq_rotator.py:85-86 | cooling aside, each position is used the floor or the ceiling of counter / N times |
| `GroqRotator.WideClaimIsDistinctExactly` | backend/src/agent_service/llm/groq_rotator.py:105-108 | a claim of width n gets different positions if and only if n <= N |
| `GroqRotator.WideClaimGetsDistinctKeys` | backend/src/agent_service/llm/groq_rotator.py:105-108 | with distinct keys and n <= N the keys returned are distinct |
| `CostLedger.RoundIsNearest` | backend/src/agent_service/core/session_cost.py:60-62 | rounding is to the nearest unit, halves away from zero |
| `CostLedger.RoundingShiftsExactly` | backend/src/agent_service/core/session_cost.py:136 | rounding a stored amount plus a cost is adding the rounded cost unless the cost is halfway and its sign is not the new amount's |
| `CostLedger.SessionLedger.AddCost` | backend/src/agent_service/core/session_cost.py:64-182 | aggregate, breakdowns and history after one call; nothing for an empty session id |
| `CostLedger.ModelsAgreeExactly` | backend/src/agent_service/core/session_cost.py:136-161 | one call keeps total and sum over the models equal if and only if the cost is not halfway or moves both to the same side of zero |
| `CostLedger.ProvidersAgreeExactly` | backend/src/agent_service/core/session_cost.py:163-174 | the same for the providers |
| `CostLedger.CostsAddUp` | backend/src/agent_service/core/session_cost.py:135-174 | for non-negative costs the total is the sum over models, the sum over providers and the sum of the rounded costs, after any calls |
| `CostLedger.TotalIsClose` | backend/src/agent_service/core/session_cost.py:136 | it is within half a unit per call of the exact sum |
| `CostLedger.NegativeCostsCanDisagree` | backend/src/agent_service/core/session_cost.py:136-156 | with a negative cost the agreement can fail |
| `CostLedger.CountsAddUp` | backend/src/agent_service/core/session_cost.py:137-174 | requests and tokens equal their sums over models and over providers, for all costs |
| `CostLedger.TokensAddUp` | backend/src/agent_service/core/session_cost.py:138-142 | each token count of the total is the sum of that count over all calls |
| `CostLedger.ModelEntryCountsItsCalls` | backend/src/agent_service/core/session_cost.py:145-161 | a model has an entry if and only if it was called, and its requests and tokens are those of its own calls |
| `CostLedger.ModelCostIsItsCalls` | backend/src/agent_service/core/session_cost.py:156 | for non-negative costs its cost is the sum of their rounded costs |
| `CostLedger.ProviderEntryCountsItsCalls` | backend/src/agent_service/core/session_cost.py:163-174 | the same for a provider, whose free-tier flag says whether its first call was free |
| `CostLedger.ProviderCostIsItsCalls` | backend/src/agent_service/core/session_cost.py:172 | for non-negative costs its cost is the sum of their rounded costs |
| `CostLedger.HistoryIsTheNewest` | backend/src/agent_service/core/session_cost.py:100-108 | the history is the newest 1000 entries, newest first, each with its call's time, rounded cost, model, provider and positive counts |
| `CostLedger.SessionLedger.GetHistory` | backend/src/agent_service/core/session_cost.py:246-264 | the newest entries that LRANGE yields, negative ends included |
| `CostLedger.LimitIsKeptExactly` | backend/src/agent_service/core/session_cost.py:250-262 | all entries up to a positive limit come back, all but the oldest -limit for others; so the documented maximum is kept if and only if the limit is positive or at most -limit entries exist |
| `CostLedger.KeysCollideExactly` | backend/src/agent_service/core/session_cost.py:49-57 | an aggregate and a history share a key if and only if one id is "history:" followed by the other |
| `CostLedger.SkippedExactly` | backend/src/agent_service/core/session_cost.py:314-324 | the summary passes over a session if and only if its id contains ":history:" or starts with "history:" |
| `CostLedger.HistoriesAreSkipped` | backend/src/agent_service/core/session_cost.py:322-324 | it passes over every history |
| `CostLedger.GetAllSessionsSummary` | backend/src/agent_service/core/session_cost.py:304-352 | the totals over the keys that a scan yields |
| `CostLedger.SummaryIsTheSum` | backend/src/agent_service/core/session_cost.py:321-339 | a scan without repeats counts the cost, the requests and each session that is not passed over once, in any order |
| `TorCache.TorExitBlocker.IsTorIp` | backend/src/agent_service/security/tor_block.py:139-160 | answer and state after one check |
| `TorCache.TorExitBlocker.CleanupNegativeCache` | backend/src/agent_service/security/tor_block.py:87-93 | every interval-th check removes exactly the entries that have expired |
| `TorCache.EveryIntervalthCheckCleans` | backend/src/agent_service/security/tor_block.py:87-93 | in every run every interval-th check of a non-empty address leaves no expired entry but its own, and the others leave all entries but their own as they were |
| `TorCache.EmptyAddressLeavesNoTrace` | backend/src/agent_service/security/tor_block.py:139-141 | an empty address is answered no and not counted |
| `TorCache.TorExitBlocker.RefreshOnce` | backend/src/agent_service/security/tor_block.py:95-117 | the list is replaced as a whole, or kept when the download fails or one entry does not parse |
| `TorCache.TorIsAnsweredOnlyForTheLastList` | backend/src/agent_service/security/tor_block.py:98-99 | in every run Tor is answered only for an address of the last list that was downloaded and parsed as a whole, whatever checks, failed downloads and cleanups came before |
| `TorCache.ListedForTtlMeansTrue` | backend/src/agent_service/security/tor_block.py:148-160 | an address in the list now and at every check of it in the last ttl seconds is answered as Tor |
| `TorCache.EntriesAreMisses` | backend/src/agent_service/security/tor_block.py:159 | behind every cache entry there is an earlier check that missed, ttl before the expiry |
| `TorCache.StaleExactlyForTtl` | backend/src/agent_service/security/tor_block.py:148-160 | after a miss, an address that enters the list is answered as Tor if and only if ttl seconds have passed since the miss |
| `TorCache.CleanupNeverChangesAnAnswer` | backend/src/agent_service/security/tor_block.py:87-93 | with a monotone clock every answer is that of a cache which is never cleaned |
| `IpWindow.SessionSecurityValidator.Assess` | backend/src/agent_service/security/session_security.py:137-224 | count, mismatch, score, decision and stored state after one request; nothing stored for a malformed address |
| `IpWindow.CountIsTheNumberOfDistinctIps` | backend/src/agent_service/security/session_security.py:155-159 | with a monotone clock the count is the number of distinct addresses strictly after now - window, the current one included |
| `IpWindow.TtlIsUnobservableExactly` | backend/src/agent_service/security/session_security.py:241 | this holds in all runs if and only if the TTL is at least the window (or the window is empty) |
| `IpWindow.FirstFingerprintIsPinned` | backend/src/agent_service/security/session_security.py:166-174 | the first fingerprint stays pinned for the TTL, and a request is flagged if and only if it shows another one |
| `IpWindow.NextFingerprintIsPinned` | backend/src/agent_service/security/session_security.py:166-174 | after the TTL the next fingerprint shown is not flagged and is pinned; showing none changes nothing |
| `IpWindow.EachSignalAddsItsRisk` | backend/src/agent_service/security/session_security.py:161-203 | each signal adds exactly its own risk, whatever the others are |
| `IpWindow.ScoreIsNearest` | backend/src/agent_service/security/session_security.py:209 | the score is the nearest number of whole thousandths, capped at 1 |
| `IpWindow.DecisionMeans` | backend/src/agent_service/security/session_security.py:117-122 | a request is allowed or stepped up if and only if there is no impossible travel and the score is in the range for it |
| `IpWindow.DefaultDecisions` | backend/src/agent_service/security/session_security.py:46-59 | the decision for every combination of signals with the numbers that the source ships with |
| `IpWindow.SignalsOnlyTighten` | backend/src/agent_service/security/session_security.py:117-122 | with non-negative risks no further signal leads to a milder decision |
| `EventCompressor.CompressEvents` | backend/src/agent_service/api/eval_read.py:55-89 | the loop computes the fold of the specification |
| `EventCompressor.CompressionIsLossless` | backend/src/agent_service/api/eval_read.py:60-89 | expanded into typed characters and events, the output is the expanded input without the redundant tool events; no two neighbours are token blocks of one type |
| `EventCompressor.OutputIsTheMergedRuns` | backend/src/agent_service/api/eval_read.py:55-89 | the output is the kept events with every maximal run of tokens of one type merged into one entry that has the fields of its first event and the text of all |
| `EventCompressor.OutputFields` | backend/src/agent_service/api/eval_read.py:61-89 | each field of each entry of the output, a name that only repeats the type left out |
| `EventCompressor.RepetitionGoesExactly` | backend/src/agent_service/api/eval_read.py:76-79 | after a kept event that is no token, a tool event is dropped if and only if it has its type and its name, where a name that only repeats the type counts as none in the earlier one |
| `EventCompressor.TokenBetweenDoesNotMatter` | backend/src/agent_service/api/eval_read.py:76-79 | the same with a token between the two |
| `EventCompressor.NextKeepsShape` | backend/src/agent_service/api/eval_read.py:76-82 | the last entry written is the event before the last run of tokens, so the code drops exactly the redundant tool events |
| `EventCompressor.OnlyToolEventsAreDropped` | backend/src/agent_service/api/eval_read.py:76-79 | an input without tool events is kept whole |

## Left out

- Cryptography: HMAC is a function parameter, the TOTP check an oracle bit; JWT encoding, `mfa_fresh`, Fernet and Argon2 are not modelled.
- Refresh tokens: the crash of a process between two commands, and the issued and expiry times on the handle.
- Floating point: rates, tokens, clocks, scores and costs are exact reals or whole units; the two clock reads of a sliding-window check are one, and Redis and the caller share one clock.
- Rate limiter: `get_status`, `reset_identifier` and the synchronous wrapper; the random backoff that a comment mentions does not exist in the code.
- SSE: decoding of bytes by TextDecoder, the HTTP errors before the stream, `parseMaybeJson`, and the parts of section 9.2.6 of the WHATWG HTML Living Standard that the reader does not implement (`id` and `retry` fields, a lone carriage return as line end, the byte order mark).
- Dedupe key: the `TypeError` fallback for values that are no JSON; floats are held by their text.
- Tool graph: what a tool's schema accepts, drops and converts (it is any function), what the raw MCP tool does before it sends, LangGraph's own recursion limit, checkpointing, the system prompt, and normalisation of results into text beyond its outcome.
- TOTP: empty arguments, and failures of decryption.
- Shadow queue: the switch that turns the worker off, worker crashes, failing Redis commands, partial database writes, malformed payloads in `ShadowRuns` (the poll in `ShadowWorker` has them), and the parsing of the judge's reply up to its entries.
- Groq keys: `mark_key_cooling` and its hash; probes of the marker are an oracle. Two keys whose shortened hashes coincide cool together, which the oracle allows.
- Cost ledger: concurrent `add_cost` (the GET is not under WATCH), expiry of the keys between calls, `reset_cost`, averages and the published events.
- Tor list: the middleware, staleness metrics and the download itself; parsing of addresses is a parameter.
- Session security: geography and speed are one signal; normalisation of ids and addresses, and the state hash of the last request.
- Trace events: other fields of an event are copied as one opaque value.
- Everything else in the repository (pages, HTTP handlers, SQL, vector stores, pricing, model catalogs, configuration): input and output over libraries, or table lookups that would only add easy members.
