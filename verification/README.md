# Verified model of the warehouse refund agents

The system processes refund requests with LLM-driven agents. Its own control logic is what this project models:
the supervised workflow with crash recovery, the tool schedulers and the ReAct loop, the resilience layer around the
models, the deduplication and consumption protocols around Redis, PostgreSQL and Kafka, and a few text and arithmetic
algorithms. Models, agents, tools, regular expressions, `json.loads`, clocks and random ids are oracles: parameters
about which nothing is known beyond what a lemma's `requires` says. Every theorem is for all oracles and all runs.

`dafny verify dfyconfig.toml` checks the whole project.

## Modules

| module | what it holds |
|---|---|
| `Prelude` | options and the elements of a sequence |
| `Dependencies` | tool calls, the dependency relation, chains and cycles |
| `Waves`, `WaveTheory` | the wave sort (a loop) with its declarative specification, and the graph theory about it |
| `ReactLoop` | the loop over LLM turns as a class whose `messages` list is appended to and overwritten in place |
| `ParallelExecutor` | the second scheduler, its least fixed point, and its agreement with the wave sort |
| `CircuitBreaker`, `RetryBudget` | classes with updated fields, specified by step functions over histories |
| `FallbackLog`, `SharedHistory`, `FallbackChain` | the chain as a class that tasks share: what one run looks like, and where its visits stand in the common history of all tasks' locked steps |
| `Tokens`, `PiiMasker`, `MaskingCoverage`, `MaskingRoundTrip` | strings with mask tokens, the reversible masker as a class with its specification on tables, what gets masked, and what comes back |
| `Json`, `BraceScanner` | JSON texts after RFC 8259, and the character loop that finds an object in prose |
| `Workflow`, `HumanReview`, `Recovery`, `SaveBudget` | the supervisor and the graph as pure state functions; which runs go to a human; checkpoints, crashes, resumption; how many agent runs are saved |
| `Idempotency`, `Answers`, `EventDelivery`, `Consumer`, `Redelivery` | the two protocols as machines over atomic steps, with crashes at every step, and what they answer and deliver when left alone |
| `Persistence` | the database tools as a class whose tables are updated in place |
| `TrafficSplit`, `RefundPolicy` | bucket assignment and refund amounts in exact arithmetic |

## Where the code and its documentation disagree

The model follows the code. Each point below is a theorem: a concrete run or input that breaks the promise, and the
exact condition under which the documented behaviour does hold.

* `executor/resilience.py:67` says that HALF_OPEN allows one test call, whose success closes the breaker. In
  `CircuitBreaker.TwoTestCalls` two calls go through. One call goes through exactly when no other begins while probing
  (`CircuitBreaker.SingleTestCallIff`), and the first success closes exactly when one success is enough
  (`CircuitBreaker.FirstOutcomeOfProbe`).
* `agents/output_parser.py:9` promises the first valid JSON object. A brace group that is not JSON in front of the object
  hides it (`BraceScanner.EarlierBracesHideTheObject`, `BraceScanner.HidingGroupIsNotJson`); the scanner's candidate is the object exactly when no `{` comes
  before it (`BraceScanner.ExtractionIsExact`).
* `guardrails/pii_handler.py:5` calls the masking reversible. A masker that has masked one address does not give back
  the text `[EMAIL_1]` (`MaskingRoundTrip.LiteralTokenIsLost`). A text is given back by every masker exactly when it
  holds no token that may be issued (`MaskingRoundTrip.AlwaysGivenBackIff`), and by one masker exactly when it holds
  none of that masker's tokens (`MaskingRoundTrip.MaskThenUnmask`).
* `guardrails/pii_handler.py:90` says that all PII is masked. A number that is followed by a card number within ten
  characters is found and left standing (`MaskingCoverage.NumberBeforeCardStays`), because the guard at line 102 looks for
  a card token beyond the end of the match. A string has a token afterwards exactly when it had one before or is found by
  some kind and let through by that guard (`MaskingCoverage.HasTokenIff`).
* `task_queue_store/kafka_events.py:214` says a message whose handler raised will be redelivered. Without a restart the
  loop goes on and the next commit passes the offset (`Consumer.RaisedOffsetIsPassed`); nothing is lost exactly when no
  commit follows an unsettled raise of the same session (`Consumer.SafeIffCleanCommits`).
* The guard at `main.py:178-183` is there so that a task is not finished twice. When a write after the final record
  raises, the except branch replaces that record by an error, and a redelivery finishes the task again
  (`Consumer.OverwrittenResultIsRewritten`); there is one final record throughout a run exactly when no execution finishes
  after such an overwrite (`Consumer.AlwaysSingleIffCleanFinishes`).
* `checkpoint/store.py:48-50` makes checkpoint writes best-effort so that they never disrupt the workflow. They do not
  change its result (`Recovery.CrashTransparency`), but a lost checkpoint forgets tries: `SaveBudget.LostCheckpointSavesTen`
  and `SaveBudget.CrashBetweenWritesSavesTen` save ten agent runs for one task. The caps of nine hold exactly as long as every start loads the tries of the saves
  made (`SaveBudget.AlwaysWithinNineIffStartsFit`, and `SaveBudget.UnfitStartExceeds` for the other direction).
* `main.py:356` writes to the database first so that an accepted request is durable. Its event is not: in
  `EventDelivery.CrashAbandonsKey` the handler dies before sending. An accepted key has its event, now or later, exactly
  when the inserting handler has not died before sending (`EventDelivery.EventPossibleIffNotAbandoned`).

## Model

| member | source | states |
|---|---|---|
| `Dependencies.Select` | agents/react_loop.py:77 | the list comprehension keeps exactly the elements asked for, and gets shorter when one is dropped |
| `Dependencies.BlockedSetHasCycle` | agents/react_loop.py:69-72 | a non-empty set of called tools that all wait for one another contains a dependency cycle (pigeonhole over a backward walk) |
| `Waves.ExecutionWaves` | agents/react_loop.py:39-79 | the loop returns a wave sort: every wave holds, in call order, exactly the pending calls whose called dependencies are placed, or all pending calls if there is none, until all are placed |
| `Waves.ChosenIsWave` | agents/react_loop.py:61-72 | one round, fallback included, chooses a wave |
| `Waves.RestIsPending` | agents/react_loop.py:75-77 | dropping a wave by identity leaves exactly the calls whose names are not completed, although completion is by name |
| `WaveTheory.WavesPartitionCalls` | agents/react_loop.py:54-79 | every call is in exactly one wave, no wave is empty, and each wave keeps the call order |
| `WaveTheory.DependenciesComeFirst` | agents/react_loop.py:59-67 | outside the fallback wave, every called dependency of a call is in a strictly earlier wave |
| `WaveTheory.FallbackIsLast` | agents/react_loop.py:69-72 | the nothing-ready branch fires at most once and yields the last wave |
| `WaveTheory.FallbackIffCyclic` | agents/react_loop.py:69-72 | it fires if and only if the called tools have a dependency cycle |
| `WaveTheory.PlacedIffChainsShort` | agents/react_loop.py:58-77 | before any fallback, the first k waves place exactly the tools all of whose dependency chains have length at most k |
| `WaveTheory.WaveIsLongestChain` | agents/react_loop.py:58-79 | without a cycle, the wave of a call, counted from one, is the length of the longest chain of called tools ending at it |
| `WaveTheory.WavesAreOptimal` | agents/react_loop.py:14-16 | no schedule that respects the dependencies runs any call earlier or uses fewer rounds |
| `ReactLoop.LatestEligibilityIsLatest` | agents/react_loop.py:92-96 | the forwarded eligibility text is the content of a check_eligibility reply with no later one after it, if there is any |
| `ReactLoop.ResolveToolArgs` | agents/react_loop.py:82-105 | only calculate_refund without usable eligibility is changed, and gets the latest eligibility reply |
| `ReactLoop.ForwardedOnlyWhenNeeded` | agents/react_loop.py:82-105 | the model's own arguments are kept, except that calculate_refund without a usable eligibility gets the latest reply that has content, if there is one; no other argument ever changes |
| `ReactLoop.Transcript.AppendTrimmed` | agents/react_loop.py:167-199 | whether or not the message is overwritten, the transcript grows by one AI message with exactly the calls of the first wave |
| `ReactLoop.Transcript.ExecuteWave` | agents/react_loop.py:206-217 | all calls of the wave see the same transcript, and one reply per call is appended in order |
| `ReactLoop.RepliesCarryOutcomes` | agents/react_loop.py:108-118 | each reply is what its tool returned for the resolved arguments; an unknown tool and a raising one are answered with their error |
| `ReactLoop.Transcript.RunTurn` | agents/react_loop.py:167-217 | one turn appends a valid turn that follows the oracles |
| `ReactLoop.Transcript.Ask` | agents/react_loop.py:156-165 | a refusal of the resilience layer passes through; a response other than the primary model's comes only after an ordinary failure, with a chain and with tools |
| `ReactLoop.Transcript.Run` | agents/react_loop.py:121-222 | the transcript grows by at most max_iterations turns, each determined by the oracles and what stood before it, plus the final answer; the loop ends with an answer, an error of that turn, or after exactly max_iterations turns |
| `ReactLoop.FirstWave` | agents/react_loop.py:186-187 | `waves[0]` exists for every non-empty batch |
| `ReactLoop.FullWaveKeepsAll` | agents/react_loop.py:195 | comparing lengths is enough: a first wave as long as the batch is the batch |
| `ReactLoop.TranscriptIsWellFormed` | agents/react_loop.py:192-217 | whenever the loop reads or returns, each AI message it appended is followed by exactly one reply per call, same ids, same order |
| `ReactLoop.NoDependencyInTheSameTurn` | agents/react_loop.py:176-184 | on acyclic batches no executed call depends on any call of the same response |
| `ParallelExecutor.Order` | executor/parallel_executor.py:40 | the dictionary's keys are exactly the called names |
| `ParallelExecutor.LastNamed` | executor/parallel_executor.py:40 | of calls with one name, the last is the one that is run |
| `ParallelExecutor.DependencyAwareExecutor.Execute` | executor/parallel_executor.py:31-99 | the executed tools are the least set closed under "all dependencies executed"; each has the text of its last call; the rounds are the greedy ones |
| `ParallelExecutor.ResultsCarryOutcomes` | executor/parallel_executor.py:60-97 | each result is what the last call of that name returned; an unknown tool and a raising one yield their error |
| `ParallelExecutor.RoundIsForced` | executor/parallel_executor.py:44-48 | a round adds only tools that every closed set contains |
| `ParallelExecutor.StopsClosed` | executor/parallel_executor.py:50-52 | giving up means the executed set is closed |
| `ParallelExecutor.RoundsAreWaves` | executor/parallel_executor.py:43-65 | on acyclic, dependency-closed batches with distinct names, its rounds are the waves of the wave sort, in the same order |
| `CircuitBreaker.CircuitBreaker.BeforeCall` | executor/resilience.py:99-114 | a call is refused exactly while open and too early; all counters of the new state |
| `CircuitBreaker.CircuitBreaker.OnSuccess` | executor/resilience.py:116-125 | the new state after a success in every phase |
| `CircuitBreaker.CircuitBreaker.OnFailure` | executor/resilience.py:127-144 | the new state after a failure in every phase |
| `CircuitBreaker.TotalsCountHistory` | executor/resilience.py:146-154 | over any interleaving the reported totals are the calls begun, the failures, and the calls begun but not admitted |
| `CircuitBreaker.LastFailureTimeIsLatest` | executor/resilience.py:130 | over any interleaving the stored time is that of the latest failure |
| `CircuitBreaker.ClosedIffBelowThreshold` | executor/resilience.py:116-139 | closed if and only if the count is below the threshold; when closed, the count is the failures since the last success |
| `CircuitBreaker.OpensExactlyAtThreshold` | executor/resilience.py:135-138 | a closed breaker opens exactly at the failure that completes a run of threshold failures without a success |
| `CircuitBreaker.HalfOpenHasProbe` | executor/resilience.py:103-125 | in HALF_OPEN there is a half-opening call, no failure since, and the success count is the successes since |
| `CircuitBreaker.ProbeIsHalfOpen` | executor/resilience.py:103-134 | after a half-opening call the breaker stays half open until a failure or the last required success |
| `CircuitBreaker.HalfOpenIffProbing` | executor/resilience.py:103-134 | HALF_OPEN read off the history, both directions |
| `CircuitBreaker.ProbingAdmitsEveryCall` | executor/resilience.py:99-114 | while probing every call is admitted and probing goes on |
| `CircuitBreaker.ProbesAdmitted` | executor/resilience.py:99-114 | the calls admitted in a probing period are the half-opening call and every call that begins after it |
| `CircuitBreaker.SingleTestCallIff` | executor/resilience.py:67 | exactly one test call goes through if and only if no other call begins while probing |
| `CircuitBreaker.FirstOutcomeOfProbe` | executor/resilience.py:67 | a failure while probing always reopens; the first success closes if and only if success_threshold is one |
| `CircuitBreaker.TwoTestCalls` | executor/resilience.py:67 | a run in which two test calls go through |
| `CircuitBreaker.ClosesOnlyAfterProbes` | executor/resilience.py:118-123 | it closes only at the success_threshold-th success since half-opening, with no failure in between |
| `CircuitBreaker.OpenAdmitsNothingEarly` | executor/resilience.py:103-114 | from any open state, whatever calls in flight do, nothing is admitted until a recovery timeout after the failure that is then latest |
| `RetryBudget.RetryBudget.Prune` | executor/resilience.py:192-196 | keeps the timestamps inside the window, and how many there are |
| `RetryBudget.RatioTest` | executor/resilience.py:209 | the division test equals comparing cross products |
| `RetryBudget.RetryBudget.TryAcquire` | executor/resilience.py:198-213 | for every history that explains the lists: grants if and only if the retries really granted in the window that ends now are fewer than max_retries and below the configured ratio of the requests really made in it, if any; and records the grant |
| `RetryBudget.RetryBudget.RecordRequest` | executor/resilience.py:215-218 | appends the request |
| `RetryBudget.RetryBudget.Metrics` | executor/resilience.py:231-241 | for every history that explains the lists, the reported numbers are the retries really granted and the requests really made in the window that ends now, and the remaining budget is not negative |
| `RetryBudget.CountActive` | executor/resilience.py:234-235 | the counting loop counts the timestamps that pruning would keep |
| `RetryBudget.PruningIsInvisible` | executor/resilience.py:192-213 | over any trace with a monotone clock the pruned lists give the same counts as the full history, now and at every later time |
| `RetryBudget.GrantedIffHistoryPermits` | executor/resilience.py:192-213 | pruning never changes a verdict: the pruned lists and the full history grant the same retries |
| `RetryBudget.GrantsIffBelowLimits` | executor/resilience.py:204-213 | after any history the verdict is yes if and only if, in the window that ends now, the granted retries are fewer than max_retries and, where requests were made, retries / requests is below the ratio |
| `RetryBudget.RetryIffBelowLimits` | executor/resilience.py:198-213 | asking for a retry after any history adds exactly one grant under those two limits, and none otherwise |
| `RetryBudget.RollingWindowCap` | executor/resilience.py:182-183 | every window (s, s + window], wherever it starts, holds at most max_retries granted retries |
| `RetryBudget.BudgetRemainingIsExact` | executor/resilience.py:231-241 | after any trace the retries in the window are those really granted in it, and at most the limit |
| `FallbackChain.ModelFallbackChain.Visit` | executor/resilience.py:349-402 | one model, while other tasks take any locked steps at every await: skipped or refused while its breaker is open and too early, called only when the breaker admits it; the common history then holds the call's beginning and after it a success for a reply or a failure for a raise; after a failure a retry is granted or denied as the budget decides in that history |
| `FallbackChain.ModelFallbackChain.TryModels` | executor/resilience.py:346-406 | models are visited in priority order, each at most once and each as its breaker and the budget decide, and the result says why the visits stopped |
| `FallbackChain.ModelFallbackChain.Invoke` | executor/resilience.py:329-406 | records one request in the budget's history before any model is visited, and keeps total model calls at most recorded requests plus granted retries |
| `FallbackChain.ModelFallbackChain.InvokeWithRetry` | executor/resilience.py:408-437 | the same accounting over whole attempts; every attempt but the last found all models failing and the budget granted a retry after it |
| `FallbackLog.CallsWithinGrants` | executor/resilience.py:345-406 | one invoke makes at most one model call more than it is granted retries |
| `FallbackLog.ReplyExplainsEarlierModels` | executor/resilience.py:351-402 | on success every earlier model was open and too early, or was admitted, failed and got a retry that the budget's limits allowed; the replying model was admitted |
| `FallbackChain.ModelFallbackChain.Yield` | executor/resilience.py:345-437 | any number of locked steps of other tasks keep breakers and budget in the states of the common history |
| `SharedHistory.CalledModelHasRested` | executor/resilience.py:351-382 | whatever the other tasks do, a model is called, during this run of the chain, only if, whenever its breaker was open before, some call since then came a recovery timeout after the latest failure |
| `SharedHistory.CallIsReported` | executor/resilience.py:361-392 | every model call of this run stands in its breaker's history as a beginning at its own time, followed by a success if the model replied and a failure if it raised |
| `SharedHistory.RetryFollowsHistory` | executor/resilience.py:394-402 | a retry of a run is granted if and only if, where it stands in the history of all tasks, the retries granted to all of them in the window that ends then are fewer than the limit and below the ratio of all their requests |
| `SharedHistory.GrantIsCounted` | executor/resilience.py:396-402 | every granted retry of a log is among the grants that the window limit counts |
| `FallbackChain.ModelFallbackChain.GrantsPerWindow` | executor/resilience.py:284 | after any runs of the chain by any tasks, every interval as long as the window holds at most the limit of granted retries |
| `Tokens.Find` | guardrails/pii_handler.py:99 | the leftmost occurrence, if there is one |
| `Tokens.PiiNotInside` | guardrails/pii_handler.py:43-79 | nothing the patterns match is part of the inside of a token |
| `Tokens.TokenUnique` | guardrails/pii_handler.py:76-79 | at most one token can stand at a position |
| `Tokens.TokenBeforePii` | guardrails/pii_handler.py:97-116 | a token that starts before a match also ends before it |
| `Tokens.MaskingKeepsRestore` | guardrails/pii_handler.py:97-116 | replacing any occurrence of a match by its token does not change what the text restores to |
| `Tokens.NoTokenCompleted` | guardrails/pii_handler.py:129-130 | putting an original back never completes another token |
| `Tokens.ReplaceOneToken` | guardrails/pii_handler.py:129-130 | replacing one token everywhere leaves what the remaining tokens still have to restore: sequential equals simultaneous restoration |
| `Tokens.RestoreIsIdentityIff` | guardrails/pii_handler.py:126-131 | a text restores to itself if and only if no token of the table stands in it |
| `PiiMasker.IssuedIsToken` | guardrails/pii_handler.py:76-79 | the first 10^8 - 1 tokens of each kind have at most eight digits, so they are never mistaken for PII |
| `PiiMasker.TokenInjective` | guardrails/pii_handler.py:79 | different kinds or counts give different tokens |
| `PiiMasker.InsertKeepsTables` | guardrails/pii_handler.py:84-87 | a new token was never issued before, the two tables stay inverse, and their size stays the sum of the counters |
| `PiiMasker.PIIMasker.GetToken` | guardrails/pii_handler.py:76-79 | numbers the tokens of a kind from one on |
| `PiiMasker.PIIMasker.MaskMatch` | guardrails/pii_handler.py:81-87 | the new tables: unchanged for a known original, one more entry in each for a new one; the token returned |
| `PiiMasker.EnterKeepsOk` | guardrails/pii_handler.py:81-87 | entering an original keeps the tables inverse and forgets no token; its token stands for it, whether new or known |
| `PiiMasker.PIIMasker.MaskKind` | guardrails/pii_handler.py:97-104 | the loop masks every match found in the text before any of them was masked, one after the other in the text as masked so far |
| `PiiMasker.MatchesFollow` | guardrails/pii_handler.py:97-104 | masking these matches one by one keeps what the text restores to, although they come from an older text |
| `PiiMasker.PIIMasker.Mask` | guardrails/pii_handler.py:89-124 | runs the five kinds in order; what the result is, is stated by the `MaskingCoverage` rows and by `MaskedFollows` |
| `PiiMasker.MaskedFollows` | guardrails/pii_handler.py:89-124 | from any consistent tables: no token loses its original, the tables stay inverse, and under every later table the masked text restores like the original |
| `MaskingCoverage.EveryMatchHasToken` | guardrails/pii_handler.py:97-116 | after the loop of one kind every match has a token, unless it is an SSN match that the guard skipped; no other kind is guarded |
| `MaskingCoverage.EverythingFoundHasToken` | guardrails/pii_handler.py:89-124 | so it is for all five kinds when `mask` returns: whatever the patterns find in the text each kind gets has a token, but for guarded SSN matches |
| `MaskingCoverage.HasTokenIff` | guardrails/pii_handler.py:89-124 | and nothing else: a string has a token after `mask` if and only if it had one, or one of the kinds finds it in the text it gets and the SSN guard does not skip it |
| `MaskingCoverage.NumberBeforeCardStays` | guardrails/pii_handler.py:101-104 | from an empty masker, an SSN in front of a card number is found after the card was masked, and still stands in the result without a token |
| `MaskingCoverage.MatchesSplice` | guardrails/pii_handler.py:97-116 | where the matches of a kind are ascending disjoint spans with no stray earlier occurrence, the loop returns the text with exactly the spans that the guard keeps replaced by their tokens |
| `MaskingCoverage.MaskSplicesTokens` | guardrails/pii_handler.py:89-124 | the same for `mask` over all five kinds, from any consistent tables |
| `PiiMasker.PIIMasker.Unmask` | guardrails/pii_handler.py:126-131 | replacing token after token in insertion order restores all at once |
| `PiiMasker.PIIMasker.DetectedCount` | guardrails/pii_handler.py:133-135 | is the size of both tables |
| `MaskingRoundTrip.MaskThenUnmask` | guardrails/pii_handler.py:20-24 | unmask(mask(t)) == t if and only if no token issued so far stands in t; always for t without brackets or without anything like a token |
| `MaskingRoundTrip.AlwaysGivenBackIff` | guardrails/pii_handler.py:20-24 | a text is given back by every masker with every detector if and only if no token that may be issued stands in it |
| `MaskingRoundTrip.TokenHolderIsLost` | guardrails/pii_handler.py:126-131 | for every text that holds such a token, a masker that masks some addresses and then loses it |
| `MaskingRoundTrip.LiteralTokenIsLost` | guardrails/pii_handler.py:126-131 | after one address has been masked, the text `[EMAIL_1]` comes back as that address |
| `BraceScanner.FeedConcat` | agents/output_parser.py:86-116 | scanning a concatenation is scanning one part after the other |
| `BraceScanner.ValueNeutral` | agents/output_parser.py:82-108 | any JSON value inside an object leaves the scanner in the state it found, whatever braces, quotes and escapes its strings hold |
| `BraceScanner.ObjectCloses` | agents/output_parser.py:104-109 | an object text closes exactly at its last character |
| `BraceScanner.TryBraceExtraction` | agents/output_parser.py:76-118 | the loop hands exactly the candidate text to json.loads, or nothing |
| `BraceScanner.ExtractionIsExact` | agents/output_parser.py:76-118 | in prefix + object + suffix the candidate is exactly the object if and only if the prefix has no `{` |
| `BraceScanner.TruncatedObjectIsNotExtracted` | agents/output_parser.py:86-118 | an object cut off before its end yields no candidate |
| `BraceScanner.EarlierBracesHideTheObject` | agents/output_parser.py:78-79 | in `{x} {}` the only candidate is `{x}`, although `{}` is an object |
| `BraceScanner.HidingGroupIsNotJson` | agents/output_parser.py:109-116 | no JSON value has the text `{x}` |
| `BraceScanner.ParseAgentOutput` | agents/output_parser.py:121-201 | the result and the exact list of strategies tried, for blank, unparsable, invalid and valid outputs |
| `BraceScanner.EmbeddedObjectIsFound` | agents/output_parser.py:152-164 | prose around an object never makes parsing fail, and without an earlier strategy's result the object itself is used |
| `Workflow.CheckpointIsGraphState` | workflow/graph.py:102-108 | `{**state, **result}` without messages equals the graph's own merge without messages |
| `Workflow.SuperviseEntries` | agents/supervisor.py:73-199 | on every branch the pass is counted and a route set; an agent is run only with tries left, and its try is counted |
| `HumanReview.RunsAgentIff` | agents/supervisor.py:89-199 | a pass runs an agent if and only if nobody asked for a human, fewer than 15 passes were made, the model names that agent's tool, and the agent has run fewer than three times |
| `HumanReview.GoesToHumanIff` | agents/supervisor.py:89-181 | a pass goes to a human if and only if an agent asked for one, 15 passes were made, the model failed, or it names an agent that has run three times |
| `HumanReview.FlaggedIffGoesToHuman` | agents/supervisor.py:89-199 | after any pass hitl_required is set exactly when the pass goes to a human |
| `Workflow.SupervisedCounters` | agents/supervisor.py:158-199 | the same on the merged state |
| `Workflow.NextPassCounters` | agents/supervisor.py:158-199 | a pass that runs an agent uses up exactly one of the tries left |
| `Workflow.AgentRunsWithinCap` | agents/supervisor.py:17-18 | from any start and under any routing, the agent runs to come are at most the sum of max(0, 3 - count) |
| `Workflow.EveryPassIsBalanced` | agents/supervisor.py:90-181 | at every pass the cycle count equals the sum of the retry counts and no agent is beyond its cap |
| `Workflow.BalancedAtAgent` | agents/supervisor.py:158-199 | so it does at every agent entry |
| `Workflow.BoundedFromReset` | workflow/graph.py:216 | from reset counters: at most 10 passes, 20 node executions, and neither the 15-cycle cap nor the 50-step limit is reached |
| `HumanReview.EarlierPassesRunAgents` | workflow/graph.py:141-169 | in a whole run every pass but the last runs an agent, and the last does not |
| `HumanReview.FlaggedIffEndsAtHuman` | workflow/graph.py:38-87 | a whole run ends with hitl_required set if and only if its last node was the human-review node, and such a run counts as saved |
| `Recovery.SupervisorStepOk` | workflow/graph.py:134-167 | a supervisor step with messages follows the uninterrupted run without them |
| `Recovery.ActKeepsTransparent` | workflow/graph.py:243-300 | every step, crash, store failure, expiry and restart keeps both stores and the process on the uninterrupted run |
| `Recovery.CrashTransparency` | workflow/graph.py:267-286 | whenever the task returns after any of these, its non-message state is that of the uninterrupted run |
| `HumanReview.ReturnedFlag` | workflow/graph.py:243-300 | through any crashes and resumptions, the returned state asks for a human exactly when the uninterrupted run ends at the human-review node |
| `HumanReview.CheckpointKeptIff` | workflow/graph.py:293-298 | a finished run that is left alone keeps its checkpoints if a human is asked for or nothing was saved or compensated, and removes both otherwise |
| `Recovery.TakeComesCloser` | workflow/graph.py:141-169 | every step of a live run comes closer to returning |
| `Recovery.ResumedRunReturns` | workflow/graph.py:219-300 | after any history, restarting and leaving the task alone returns that same state |
| `SaveBudget.TakeKeepsBudget` | workflow/graph.py:141-169 | no step increases the saves made plus the saves still possible |
| `SaveBudget.WithinNineIffStartFits` | workflow/graph.py:267-278 | a step keeps that sum within nine if and only if it is not a start from a state that records too few tries |
| `SaveBudget.AlwaysWithinNineIffStartsFit` | workflow/graph.py:267-278 | the same for whole runs with any crashes, expiries, failed reads and failed writes |
| `SaveBudget.AtMostNineSavesIfStartsFit` | checkpoint/store.py:41-150 | then at most nine agent runs are checkpointed before the checkpoint is deleted |
| `SaveBudget.AtMostNineSaves` | checkpoint/store.py:41-150 | so it is whenever the Redis entry does not expire and Redis answers reads and takes writes, whatever happens to PostgreSQL and to deletions |
| `SaveBudget.AtMostNineSavesUnlessSplit` | checkpoint/store.py:41-150 | and so it is with expiry at any time, as long as both stores answer and no crash falls between the two writes of a save |
| `SaveBudget.BudgetIsSpent` | agents/supervisor.py:158-199 | the bound is reached: when routing never gives up, every try left becomes a save |
| `SaveBudget.UnfitStartExceeds` | workflow/graph.py:267-278 | from every start that does not fit, such routing saves more than nine runs |
| `SaveBudget.LostCheckpointSavesTen` | checkpoint/store.py:95-124 | a run with ten saves: the Redis entry expires and the PostgreSQL read fails |
| `SaveBudget.CrashBetweenWritesSavesTen` | checkpoint/store.py:59-92 | a run with ten saves in which no store ever fails: a crash between the two writes of a save, then expiry |
| `Idempotency.ActKeepsInv` | main.py:324-398 | one step of any handler, crash or cache loss keeps the protocol invariant |
| `Idempotency.EveryRunKeepsInv` | main.py:324-398 | it holds after every interleaving |
| `Idempotency.OneIdPerKey` | main.py:328-398 | all replies for a key, as many as there are, carry one id, that of the durable record, which no other key has; every cached id equals the record |
| `Answers.HandlerAnswers` | main.py:328-398 | from any reachable state a handler that is left alone is done within seven steps and answers exactly once, on the cache, row, lost-race and insert paths alike, with its key and the id of the durable record, which is then cached |
| `Answers.CachedKeyAnswersAtOnce` | main.py:328-332 | a cached key is answered in one step from the cache, without touching record or cache |
| `Answers.OneReplyPerFinishedHandler` | main.py:328-398 | after any interleaving with crashes there are exactly as many replies as finished handlers |
| `Idempotency.AtMostOneEventPerKey` | main.py:387-391 | at most one event is sent per key, with the id of the replies |
| `Idempotency.RowsAreFinal` | database/models.py:144 | the durable id of a key never changes |
| `Idempotency.AbandonedKeyIsNeverSent` | main.py:364-391 | once the inserter has died before sending, no continuation sends the event |
| `EventDelivery.NoEventIff` | main.py:357-391 | an accepted key has no event if and only if its inserter is still about to send it or died before |
| `EventDelivery.UnsentSends` | main.py:384-391 | an inserter left alone sends the event in exactly the steps it has left, at most three |
| `EventDelivery.EventPossibleIffNotAbandoned` | main.py:357-391 | the event exists or can still be sent if and only if the inserter has not died before sending |
| `EventDelivery.CrashAbandonsKey` | main.py:384-387 | a run that loses its event after the id was cached |
| `Consumer.StepIsSafeIffClean` | task_queue_store/kafka_events.py:205-215 | a step keeps "everything below the committed offset is settled" if and only if it is not a commit after an unsettled raise |
| `Consumer.SafeIffCleanCommits` | task_queue_store/kafka_events.py:186-215 | the same for whole runs with crashes, reconnects and redeliveries |
| `Consumer.AtLeastOnce` | task_queue_store/kafka_events.py:186-215 | if the handler returns or dies with the process, every offset below the committed one was handled or deliberately skipped |
| `Redelivery.DrainCommitsAll` | task_queue_store/kafka_events.py:180-207 | a session left alone commits the whole log and settles all it fetches |
| `Redelivery.RestartSettlesAllIffSafe` | task_queue_store/kafka_events.py:180-215 | after any history a restarted session left alone commits the whole log, and every offset is settled if and only if no commit had passed an unsettled raise |
| `Redelivery.WorksOnFetchedInEveryRun` | task_queue_store/kafka_events.py:189-206 | in every run the handler works on the refund event that was fetched last and on no other |
| `Redelivery.RestartFinishesTasks` | main.py:178-183 | after any history a restarted session left alone leaves every refund from the committed offset on with a final result, also where an earlier execution ended in an error |
| `Consumer.RaisedOffsetIsPassed` | task_queue_store/kafka_events.py:208-215 | a run in which a raised message is never redelivered |
| `Consumer.AtMostOneSurvivingResult` | main.py:177-285 | between expiries and resolutions, executions write at most one final record more than error records overwrote |
| `Consumer.FirstResultIffNoneLost` | main.py:211-279 | an execution's final record is the first exactly when no error record overwrote one |
| `Consumer.AlwaysSingleIffCleanFinishes` | main.py:177-285 | one final record per task all along the run if and only if no execution finishes after such an overwrite |
| `Consumer.AtMostOneResult` | main.py:178-183 | so it is when awaits raise only while the workflow executes, across crashes and redeliveries |
| `Consumer.OverwrittenResultIsRewritten` | main.py:255-279 | a run with two final records for one task |
| `Persistence.Database.SaveProcessedRequest` | tools/db_tools.py:204-261 | the new tables; a committed save leaves a row and says whether it was there before |
| `Persistence.Database.UpdateCustomerAnalytics` | tools/db_tools.py:265-337 | the new tables on every branch; a reported update happened, a skipped one changed nothing, and the reported risk is that of the new total |
| `Persistence.FirstDecisionStays` | tools/db_tools.py:212-224 | the first decision saved for a request is never overwritten, and its flag never goes back |
| `Persistence.FirstSaveStores` | tools/db_tools.py:226-259 | the first committed save stores exactly the decision it was given, with the analytics flag off, and touches no other table |
| `Persistence.RolledBackChangesNothing` | tools/db_tools.py:260-261 | a call whose transaction does not commit leaves every table as it was |
| `Persistence.RefundsAreConserved` | tools/db_tools.py:305-324 | total_refunds is its initial value plus the applied analytics calls for the customer |
| `Persistence.RefundsMatchFlags` | tools/db_tools.py:305-328 | across the two tables: the refunds of all customers grow by exactly the rows newly flagged and the calls applied without a row |
| `Persistence.AppliedOnceAndFlagged` | tools/db_tools.py:273-328 | the calls naming a saved request change a customer exactly once or never, as the flag says |
| `Persistence.OneAnalyticsUpdatePerRequest` | tools/db_tools.py:273-287 | at most once per saved request, and never again once flagged |
| `Persistence.RepeatedUpdate` | tools/db_tools.py:274-328 | repeating a call counts once if the row exists and twice if it does not |
| `Persistence.RiskIsBoundedAndMonotone` | tools/db_tools.py:307-308 | risk_score lies in [0, 1] and never falls as refunds accumulate |
| `Persistence.RiskIsScaledRate` | tools/db_tools.py:307-308 | the risk is full exactly from two refunds in three orders on, and below that it is three halves of the refunds per order |
| `Persistence.DerivedMeans` | tools/db_tools.py:303-321 | the derived averages multiply back to the money spent and the refunds made |
| `Persistence.AnalyticsStayInSync` | tools/db_tools.py:310-324 | from the first applied update on, the analytics row shows the values derived from its customer |
| `TrafficSplit.Select` | evaluation/ab_testing.py:148-154 | the loop returns the variant that owns the bucket |
| `TrafficSplit.OneOwner` | evaluation/ab_testing.py:148-154 | a bucket has at most one owner |
| `TrafficSplit.EveryBucketIsShared` | evaluation/ab_testing.py:144-154 | every bucket has one |
| `TrafficSplit.ShareSize` | evaluation/ab_testing.py:148-154 | the exact number of buckets of each variant |
| `TrafficSplit.SplitIsWithinTolerance` | evaluation/ab_testing.py:66-69 | under the accepted tolerance every variant, the last included, is within 100 buckets of its declared share |
| `RefundPolicy.SilverIsMidway` | tools/policy_tools.py:187-197 | before rounding silver's refund is midway between bronze's, which loses the whole fee, and gold's, which is the order amount |
| `RefundPolicy.TiersExtendWindow` | tools/policy_tools.py:62-72 | bronze has the product's window; silver is eligible exactly seven days longer and gold fifteen |
| `RefundPolicy.PayoutInWindow` | tools/policy_tools.py:162-198 | nothing is paid after the window; in it gold gets the whole amount and everyone the nearest cents to the exact amount |
| `RefundPolicy.NearestIsMonotone` | tools/policy_tools.py:198 | rounding to a nearest cent is monotone under any tie rule |
| `RefundPolicy.FeeOrder` | tools/policy_tools.py:187-197 | unrounded amounts grow with the tier, from at least zero to the order amount |
| `RefundPolicy.TiersAreOrdered` | tools/policy_tools.py:162-198 | 0 <= bronze <= silver <= gold <= amount after rounding and with the tiers' own return windows |
| `RefundPolicy.PayoutFallsWithTime` | tools/policy_tools.py:62-72 | the payout never increases with the days since purchase |
| `RefundPolicy.GuardNeverFires` | guardrails/runner.py:163-166 | the "exceeds order amount" rule never fires on a computed refund |
| `RefundPolicy.GuardFiresIff` | guardrails/runner.py:163-166 | the rule fires exactly on refunds above a known order amount |

## Left out

- AtMostNineSaves: excludes expiry of the Redis entry, failed Redis reads and failed Redis writes; `AtMostNineSavesUnlessSplit` allows expiry, and the exact condition for all failures is `AlwaysWithinNineIffStartsFit`.
- AtMostNineSavesUnlessSplit: one direction only, as a readable sufficient condition.
- UnfitStartExceeds: for starts whose state has no human-review flag, since with the flag no agent runs at all, and a cycle count that leaves room for the tries under the cycle cap.
- CrashTransparency: models the branch without a native LangGraph checkpointer (`workflow/graph.py:267`), with routing and agents as functions of the non-message state, and takes a checkpoint to survive its JSON encoding. The native checkpointer and the resumption with an explicit `recovered_state` are not modelled.
- AtMostOneResult: one direction only, as a readable sufficient condition; the exact condition is `AlwaysSingleIffCleanFinishes`.
- MaskThenUnmask: for fewer than 10^8 tokens per kind, as are AlwaysGivenBackIff and TokenHolderIsLost; the patterns themselves are an oracle that yields bracket-free texts which do not look like the inside of a token.
- MaskSplicesTokens: for detectors whose matches are clean spans (ascending, disjoint, holding their own group, with no earlier copy of a group left in the text when it is masked) and fewer than 10^8 tokens per kind; MatchesSplice likewise. What holds without clean spans is `EverythingFoundHasToken` and `MaskedFollows`.
- BudgetRemainingIsExact: assumes a monotone clock, as the source's `time.monotonic` provides; the retry ratio is an exact rational and not a float.
- ReactLoop.Transcript.AppendTrimmed: a trimmed AI message keeps content and calls only; other attributes of the response are not modelled.
- FallbackChain.ModelFallbackChain.Visit: a model client that itself raises CircuitBreakerOpen and the cancellation of a call are not modelled; the clock readings are those of one monotone clock.
- The models of a chain are given in priority order; sorting them, the client cache, back-off delays and jitter are left out.
- `main.py`, `task_queue_store/kafka_events.py` and `checkpoint/store.py` update remote stores; they are modelled on values, as machines over atomic steps, because crashes and interleavings between the steps are the point. The fields `_running`, `_consumer` and `_producer` and the back-off of the consume loop are not captured.
- One topic partition and one consumer at a time; a missing handler (`task_queue_store/kafka_events.py:201-203`), duplicates inside the Kafka producer, and the status and result tables written after a record are left out. A send whose acknowledgement is lost counts as sent by its handler.
- The losing racer of `save_processed_request`, and analytics updates that run concurrently, depend on the database; the transactions of `Persistence` run one after the other. Foreign keys, nulls and lost connections appear only as transactions that do not commit.
- Approving a human-review task, and resolving one task twice at once.
- TiersAreOrdered: for amounts in whole cents, exact fees between 0 and 1, and the eligibility that `check_eligibility` gives for the same order and tier; the error replies of the policy tools and an eligibility text that belongs to another order or tier are not modelled.
- PayoutFallsWithTime: as TiersAreOrdered.
- GuardNeverFires: as TiersAreOrdered; the guard's other rules are not modelled.
- SplitIsWithinTolerance: for shares in whole basis points; floating-point sums are not modelled.
- RiskIsBoundedAndMonotone: over exact reals; floats are not modelled.
- Direct and fenced JSON strategies, model validation, the regular expressions, `json.loads` and the hash of a request are oracles.
- Prompt texts, the registry, sanitizers and one-way masking, semantic cache, statistics of experiments, evaluation, telemetry, HTTP plumbing and the user interface.
