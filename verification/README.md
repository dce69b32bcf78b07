# FreeLunch, modelled and proved in Dafny

FreeLunch is an LLM gateway: it discovers models at several providers, ranks them, keeps track of their health, routes a
chat request to a few candidates in turn and relays the answer, streaming or not. This project models the parts of it
whose correctness does not show from reading one function, and proves what they guarantee.

Providers, clients, clocks, thread interleavings and chunk boundaries are arbitrary inputs. Concurrent code is a step
system: a state, the actions of each thread as atomic sections, and theorems about every possible sequence of actions.
Loops are methods proved against specifications that do not mention the loop.

| file | models |
|---|---|
| `SseFramer.dfy` | the incremental event framer of `src/providers/openai_compatible.py`, for every way of cutting the stream into chunks |
| `DbWriter.dfy` | the bounded write queue of `src/db.py`, its producers, its writer thread and the writer's crash |
| `ProbeBatch.dfy` | a concurrent batch of health probes under a daily budget, `src/health.py` |
| `HealthState.dfy` | failure count, back-off and cooldown of a model, with reads that may be stale, `src/health.py` |
| `ProbeSelection.dfy` | which models a health run probes, `src/health.py` |
| `Proxy.dfy` | one chat request: the loop over candidates and the stream relay of `src/proxy.py` |
| `Throttle.dfy` | the bounded table of failure windows of `src/security_throttle.py` |
| `TokenizerPreload.dfy` | background tokenizer loading, its cache and its completion callback, `src/tokens.py` |
| `Routing.dfy` | choosing and ordering candidates, `src/routing.py` |
| `Discovery.dfy` | reconciling the model table with what providers report, `src/discover.py` and `src/db.py` |
| `Paging.dfy` | adaptive paging through a leaderboard, `src/benchmarks.py` |
| `Ranking.dfy` | the composite score, `src/ranking.py` |
| `Sequences.dfy` | splitting, flattening, counting: shared by the models |

`dafny verify dfyconfig.toml` checks everything.

## What does not hold, and exactly when it does

- The framer's acceptance depends on the chunking in one case only: a chunk boundary between the CR and the LF that
  end a comment (or, for a limit of 0, a blank line) of exactly `max` bytes. `AcceptedIff` has the equivalence,
  `SplitCommentIsRefused` and `WholeCommentIsAccepted` the two sides for every such comment. Without CR the chunking
  is irrelevant.
- "The relay accepts every event the framer yields under the same limit" is false: an event is its lines with their
  line ends and one byte more (`SizeBoundIsReached`). `RelayAcceptsIff`: it holds exactly when no block of the stream
  that has a line in it weighs the limit itself, each line counted with its line end.
- "A stream is always recorded unless the client left" is false: reading the first event can raise before the relay's
  `try`. `NoRecordIff` has the equivalence and `EventMeans` says which events those are: JSON that fails to load for
  another reason than its syntax, that tests true without being an object, or that holds an error object with a text
  that cannot be printed or a status code made of digits that `int` refuses. `FirstEventCanEscape` and
  `ErrorObjectCanEscape` have inputs of the last two kinds.
- "An explicitly requested model comes first" is false in two ways: for a limit of 1 with another eligible fallback,
  and for a negative limit, which the unclamped setting allows, when such a fallback is among the candidates dropped
  from the end. `ExplicitFirstIff` has the equivalence for every integer limit, `FallbackIsIncluded` the one for the
  fallback.
- The reserve of 256 places for other writes shrinks when the log policy is raised above the constructed size;
  `FullQueueKeepsReserve` and `ReserveBoundIsReached` give the exact bound for every policy, down to no reserve at
  all.
- "Back-off is the failure count, capped" is false when reads are stale. `ReadDecides`: a failure leaves it so exactly
  when the back-off it reads is the count that will stand before it, or both have reached the cap. While a model only
  fails, `DrainedBackoff` has the exact value, from the order of events alone, and the exact condition for it to be
  right, which a cap forgives much of; up to as many failures as the cap, `ExactIffFresh`: it is right exactly when
  every failure was recorded after a flush. `StaleReadsLoseIncrements` has an input where it ends up too low,
  `FailureBehindSuccess` one where a success is undone and it ends up too high.
- "After a clear, only tokenizers loaded since are cached, and no hint is loaded twice at once" is false: a load that
  is already under way is not stopped and stores its tokenizer unchecked. `ClearIsEffectiveIff`: either promise holds
  exactly when the clear finds no load queued or running; `LateStore` and `LoadBesideLoad` have the runs that break
  them.

## Model

| member | source | states |
|---|---|---|
| SseFramer.EventStream | src/providers/openai_compatible.py:418-466 | accepted exactly when the whole stream meets the limits and no boundary is hazardous; then the events are those of the whole-buffer specification, and before a size error those of the lines before it |
| SseFramer.StreamMeaning | src/providers/openai_compatible.py:425-466 | the meaning of a stream said about its bytes: each paragraph of lines, whatever their line ends, is one event of its lines that are no comments, each with an LF, and one LF more; at the end the open lines are flushed with the unfinished one, comment or not, without its CR |
| SseFramer.EveryStreamIsADocument | src/providers/openai_compatible.py:425-466 | every stream is such paragraphs, open lines and an unfinished line |
| SseFramer.DrainLines | src/providers/openai_compatible.py:425-450 | the inner loop takes exactly the complete lines of the buffer and stops at the first that breaks a limit |
| SseFramer.AcceptLine | src/providers/openai_compatible.py:428-450 | one line: refused exactly when it breaks a limit, otherwise pending lines, their byte count and the events stay those of the lines read |
| SseFramer.ChunkLines | src/providers/openai_compatible.py:423-427 | appending a chunk to the unfinished line brings exactly the lines the stream gained |
| SseFramer.AcceptedIff | src/providers/openai_compatible.py:418-466 | acceptance for any chunking, in terms of the stream and its hazardous boundaries |
| SseFramer.FitsIff | src/providers/openai_compatible.py:430-463 | the limits hold exactly when no line is longer than the limit and no block weighs more |
| SseFramer.OverflowIsHazard | src/providers/openai_compatible.py:451-455 | in a stream that fits, only a hazardous boundary leaves an oversized unfinished line |
| SseFramer.ChunkingIsIrrelevantWithoutCr | src/providers/openai_compatible.py:418-466 | without CR two chunkings of a stream give the same verdict and the same events, also before a size error |
| SseFramer.SplitCommentIsRefused | src/providers/openai_compatible.py:428-455 | a comment of exactly the limit is refused when its CR and LF are in different chunks |
| SseFramer.WholeCommentIsAccepted | src/providers/openai_compatible.py:428-434 | the same comment in one chunk is accepted |
| SseFramer.EventsArePrefix | src/providers/openai_compatible.py:418-466 | whatever ends the run, the events yielded are a prefix of the specification's |
| SseFramer.FittingLinesGiveSmallEvents | src/providers/openai_compatible.py:444-450 | while every line fits, the pending weight stays within the limit and the events emitted within limit plus one |
| SseFramer.EventsAreSmall | src/providers/openai_compatible.py:435-466 | no event is longer than the limit plus one byte |
| SseFramer.SizeBoundIsReached | src/providers/openai_compatible.py:437-449 | that bound is reached |
| SseFramer.RelayAcceptsIff | src/proxy.py:535-538 | exactly when every event yielded, in an accepted run or before a size error, is within the relay's limit |
| SseFramer.YieldedBlocksWeigh | src/providers/openai_compatible.py:435-466 | the events of any run are its blocks rendered, none of them over the limit |
| SseFramer.FramingItsOutput | src/providers/openai_compatible.py:435-466 | framing the concatenated events again, in any chunks, returns the same events |
| SseFramer.FramingRenderedBlocks | src/providers/openai_compatible.py:435-466 | rendering blocks of stable lines and framing the result, in any chunks, is a round trip |
| DbWriter.DBWriter.constructor | src/db.py:309-328 | the queue starts empty with room for the log limit and 256 more |
| DbWriter.DBWriter.SetLowPriorityLogPolicy | src/db.py:342-345 | changes the policy and not the capacity |
| DbWriter.DBWriter.ReserveLogSlot | src/db.py:359-367 | a slot is reserved exactly when logging is on and the limit is not reached, otherwise the drop is counted |
| DbWriter.DBWriter.PutNowait | src/db.py:368-370 | puts unless the queue is full |
| DbWriter.DBWriter.RollBackLogSlot | src/db.py:371-375 | gives the slot back and counts the drop |
| DbWriter.DBWriter.Enqueue | src/db.py:347-378 | a call no other thread interrupts either puts the task or counts one drop and changes nothing else |
| DbWriter.DBWriter.Get | src/db.py:386-389 | takes the oldest task |
| DbWriter.DBWriter.ReleaseLogSlot | src/db.py:393-399 | the writer's `finally` gives back the slot of a log and of nothing else |
| DbWriter.StepKeepsInv | src/db.py:359-401 | every atomic step of any thread keeps the slot count, the FIFO order, the attempt count and the bounds |
| DbWriter.ReserveIff | src/db.py:359-367 | an attempt under a policy that is off, or with no slot left, is one more drop and nothing else; otherwise one slot is reserved |
| DbWriter.OffMeansNoNewLogs | src/db.py:361-367 | in any interleaving while the policy stays off, every log put had its slot reserved before, and every attempt is dropped |
| DbWriter.PolicyIs | src/db.py:342-345 | a change of policy, and the first one, set the flag and a size of at least one, and leave capacity and everything pending |
| DbWriter.ProducerStepKeepsCounts | src/db.py:359-378 | the same for the producers' steps and policy changes: slots and attempts stay accounted for |
| DbWriter.WriterStepKeepsCounts | src/db.py:385-400 | the same for the writer's steps, with or without an exception |
| DbWriter.StepKeepsFifo | src/db.py:385-401 | finished tasks, the one in hand and the queue are the tasks put, in order |
| DbWriter.StepKeepsApplied | src/db.py:385-401 | the statements that ran are the tasks taken, up to the one that stopped or killed the writer |
| DbWriter.RunsKeepInv | src/db.py:347-401 | all of this after every interleaving |
| DbWriter.ClampsNeverFire | src/db.py:371-399 | `max(..., 0)` never clamps |
| DbWriter.FlushWaitsForEverything | src/db.py:403-404 | when `flush` returns, everything put was taken in order, and has run unless the writer died |
| DbWriter.FullQueueKeepsReserve | src/db.py:324-326 | a full queue holds at least max(size, 1) + 256 - (largest policy size) tasks that are not logs |
| DbWriter.ReserveBoundIsReached | src/db.py:342-345 | for every policy size some interleaving reaches that bound, which is 0 from the queue's own size on |
| ProbeBatch.StepKeepsCounts | src/health.py:840-981 | the counters match the coroutines after every step, and running probes stay within the concurrency |
| ProbeBatch.StepKeepsBudget | src/health.py:886-903 | remembered usage is prior usage plus reservations, although the log is read while its rows may still be queued |
| ProbeBatch.RunsKeepInv | src/health.py:840-995 | the same for every interleaving |
| ProbeBatch.ConcurrencyIsRespected | src/health.py:905-924 | never more probes in flight than the semaphore allows |
| ProbeBatch.NeverStuck | src/health.py:840-995 | some coroutine of an unfinished batch can always go on, whatever the writer does |
| ProbeBatch.BatchEnds | src/health.py:840-995 | in any interleaving the coroutines take at most four actions per candidate, and only a finished batch has none left |
| ProbeBatch.CountsAddUp | src/health.py:822-995 | at the end considered = probed + skipped and probed = recovered + failed |
| ProbeBatch.CountersCountOutcomes | src/health.py:905-981 | one `probed` per probe begun, one `recovered` per success and one `failed` per failure |
| ProbeBatch.OutcomePerCandidate | src/health.py:924-981 | a candidate ends as recovered or failed only as its own probe answered |
| ProbeBatch.ProbedExactly | src/health.py:886-905 | each provider is probed exactly min(eligible candidates, what is left of its budget) times |
| ProbeBatch.DayRespectsBudget | src/health.py:74-86 | over any number of flushed batches in a day usage never passes the budget |
| HealthState.StepKeepsSane | src/health.py:515-608 | every queued or applied write keeps the row what the applied writes say it is |
| HealthState.RowAfterAnyRun | src/health.py:533-574 | failure count since the last success, cooldown exactly when it is positive, unhealthy exactly when the last write is a failure at the threshold, back-off in range |
| HealthState.CooldownAfterAnyRun | src/health.py:530-531 | after any run a cooldown ends the base time, doubled once per level of the row's back-off, after some failure |
| HealthState.CooldownsDouble | src/health.py:528-530 | each higher back-off read doubles the cooldown, up to the cap |
| HealthState.BackoffClimbs | src/health.py:528-530 | in runs of failures back-off never decreases and never exceeds the count, however stale the reads |
| HealthState.BackoffClimbsFromStart | src/health.py:528-530 | the same between any two moments of a new model's failures |
| HealthState.ReadDecides | src/health.py:519-530 | in any state: a failure leaves the back-off the capped count exactly when what it reads is up to date or both are at the cap |
| HealthState.FreshReadsAreExact | src/health.py:519-530 | with flushed reads back-off is the failure count, capped, in every run |
| HealthState.DrainedBackoff | src/health.py:519-542 | in runs of failures the back-off is the number of up-to-date reads, capped, and is right exactly when there were enough of them |
| HealthState.ExactIffFresh | src/health.py:519-530 | up to the cap it is right exactly when every failure was recorded after a flush |
| HealthState.FailureBehindSuccess | src/health.py:519-566 | a failure queued behind a success leaves a count of 1 and one more than the back-off from before the success |
| HealthState.StaleReadsLoseIncrements | src/health.py:519-530 | two failures read before either is applied leave a back-off of 1 |
| ProbeSelection.SelectProbeCandidates | src/health.py:665-727 | the first n distinct ids of the three buckets without cut-offs, each under its first bucket; for n below 1 the first one of what the queries return |
| ProbeSelection.TakeBucket | src/health.py:713-726 | the inner loop de-duplicates one bucket against all before it and stops when there are enough |
| ProbeSelection.CutOffsAreHarmless | src/health.py:669-692 | the LIMITs of the first two queries never change the result |
| ProbeSelection.DistinctIsFirstOccurrences | src/health.py:706-724 | chosen exactly when first of its id |
| ProbeSelection.ReasonMeans | src/health.py:706-727 | the reason of a chosen model names the query that found it, and no query before that one did |
| ProbeSelection.DistinctHasNoRepeats | src/health.py:714-716 | no id twice |
| Proxy.GatewayDoneIsDone | src/proxy.py:453-464 | the marker the gateway adds is recognized as one by its own parser |
| Proxy.ForwardEvents | src/proxy.py:516-566 | the `try` block: what was forwarded, whether a marker was seen, and the error that stands |
| Proxy.RelayStream | src/proxy.py:498-623 | output and records of the relay for every script of events, errors and disconnections |
| Proxy.SuccessIff | src/proxy.py:518-572 | a success is recorded exactly when every pull brings an event within the limit, none raises or carries an error, and the client is there to the end |
| Proxy.FailureIff | src/proxy.py:534-623 | which failure is recorded, exactly: the provider's own error, PROVIDER_UNAVAILABLE for a time-out, a break, an oversized or raising event, or else the last error the events carried; marked exactly when retryable |
| Proxy.OutputIs | src/proxy.py:516-571 | the output event by event, and exactly when the marker is added |
| Proxy.OutputIsPrefixPlusMarker | src/proxy.py:516-571 | a prefix of the provider's events plus at most one marker, added exactly on success without one |
| Proxy.SuccessHasDone | src/proxy.py:569-572 | a success is always marked as done for the client |
| Proxy.OneVerdict | src/proxy.py:567-623 | success and failure are never both recorded, a failure is logged once and counted against the model exactly when retryable |
| Proxy.NoRecordIff | src/proxy.py:504-569 | nothing is recorded exactly after an error-free disconnection or an escaping first event |
| Proxy.EventMeans | src/proxy.py:453-464 | what an event means, by its first data line: when it is the marker, when reading it raises, and which error it carries |
| Proxy.CommentEvents | src/proxy.py:467-473 | a line makes a comment event exactly when its first character that is no space is a colon |
| Proxy.ErrorFromIs | src/providers/base.py:115-143 | the status is the number or the digits under "status_code", else those under "code", and decides the category |
| Proxy.IntOfNumeral | src/providers/base.py:123-128 | digits are read as the number they write |
| Proxy.ErrorFrom | src/providers/base.py:103-143 | reading an error object raises exactly when a text cannot be printed or `int` refuses the digits it is given |
| Proxy.IntOf | src/providers/base.py:121-128 | a string of digits has a value exactly when it is short enough and all its digits are decimal |
| Proxy.FirstEventCanEscape | src/proxy.py:504-514 | a number as data: nothing reaches the client and nothing is recorded |
| Proxy.ErrorObjectCanEscape | src/proxy.py:510-514 | the same for an error object whose code is a superscript digit |
| Proxy.OpenStream | src/proxy.py:1349-1363 | leading comment events are dropped, the first other event opens the stream, all else fails the attempt |
| Proxy.AttemptMeans | src/proxy.py:1320-1363 | an attempt is fatal exactly when the provider itself raised an error that is not retryable, retried with the provider's own retryable error or as unavailable, escapes exactly for an unknown provider, and opens a stream exactly when an event within the limit follows the leading comments |
| Proxy.ChatCompletions | src/proxy.py:1272-1590 | response and calls of a request for every behaviour of the candidates |
| Proxy.CallsPerCandidate | src/proxy.py:1430-1548 | each call at most once: a model is marked as failing exactly when its attempt was retried for another reason than an exceeded context, a failure logged exactly for retried and fatal attempts with their own error, a success exactly for the attempt that served |
| Proxy.AttemptsInOrder | src/proxy.py:1291-1296 | calls follow the candidate order and end with the first attempt that is not retried |
| Proxy.ResponseIs | src/proxy.py:1272-1590 | body, stream or status from the first attempt that is not retried, with the status of each category; 400 when each of at least one attempt exceeded its context, else 502 |
| Proxy.OneSource | src/proxy.py:1349-1390 | all a client receives comes from one candidate, after its leading comments, plus at most one marker |
| Throttle.FailureThrottle.constructor | src/security_throttle.py:17-31 | starts empty with positive limits |
| Throttle.FailureThrottle.RetryAfter | src/security_throttle.py:38-52 | the answer, and the entry refreshed or dropped |
| Throttle.FailureThrottle.Fail | src/security_throttle.py:54-65 | the window counted on or restarted, then evictions down to the bound |
| Throttle.FailureThrottle.Reset | src/security_throttle.py:67-70 | the entry removed |
| Throttle.BlocksAreJustified | src/security_throttle.py:38-52 | a block means at least `limit` failures within the last window without a reset, and a wait in [1, window] |
| Throttle.EntriesAreHonest | src/security_throttle.py:54-62 | an entry counts only failures that happened since its window began |
| Throttle.AnswersArePlain | src/security_throttle.py:38-70 | without evictions every answer is that of an unbounded map of windows |
| Throttle.AnswerFromHistory | src/security_throttle.py:38-62 | without evictions, a key is blocked exactly when the last window of its failures since the last reset is open and holds `limit` of them, for the time left in whole seconds |
| Throttle.WindowsExist | src/security_throttle.py:54-62 | every history of failures is cut into such windows |
| Throttle.AskedMeans | src/security_throttle.py:43-51 | a query drops a closed window and makes an open one the most recent |
| Throttle.FewKeysMeanNoEvictions | src/security_throttle.py:64-65 | no more failing keys than entries means no evictions |
| Throttle.TableIsBoundedAndOrdered | src/security_throttle.py:51-65 | never more than `max_entries` keys, in the order of their last touches |
| Throttle.CallKeepsOrder | src/security_throttle.py:43-70 | every call keeps that order |
| Throttle.EvictionNeedsManyOthers | src/security_throttle.py:63-65 | an evicted key saw at least `max_entries` other keys touched since its own last touch |
| TokenizerPreload.Preloads.ScheduleTokenizerPreload | src/tokens.py:512-520 | submits and registers exactly when the hint is neither cached nor pending |
| TokenizerPreload.Preloads.TokenizerFutureDone | src/tokens.py:487-492 | the callback's locked section |
| TokenizerPreload.Preloads.ClearHfTokenizerCache | src/tokens.py:450-457 | the clear's locked section |
| TokenizerPreload.ScheduleIff | src/tokens.py:512-520 | one load is queued and registered exactly when the hint is not cached and its registered load, if any, is over |
| TokenizerPreload.CallbackIs | src/tokens.py:487-492 | the registered load's callback unregisters it and caches its result; any other changes neither |
| TokenizerPreload.ExecutorIsGivenUp | src/tokens.py:450-542 | after a clear or a shutdown every queued load can be cancelled, and the next one goes to an executor no load used before |
| TokenizerPreload.RunsKeepInv | src/tokens.py:415-542 | registrations are live, unfinished loads registered, successful ones cached, retries only after failures, in every interleaving |
| TokenizerPreload.OneLoadPerHintAndEra | src/tokens.py:512-520 | of the loads of a hint submitted between two clears at most one is queued, running or successful |
| TokenizerPreload.ClearIsEffectiveIff | src/tokens.py:415-461 | nothing from before a clear gets into the cache after it, and no hint is loaded twice at once after it, exactly when it finds no load queued or running |
| TokenizerPreload.LateStore | src/tokens.py:425-426 | a load the clear finds under way can store its tokenizer afterwards |
| TokenizerPreload.LoadBesideLoad | src/tokens.py:512-520 | and its hint can be loaded again beside it |
| TokenizerPreload.CachedTokenizersWereLoaded | src/tokens.py:425-435 | every cached tokenizer came from a load of that hint |
| TokenizerPreload.CallbackSparesOthers | src/tokens.py:487-492 | a callback never removes another load's registration |
| TokenizerPreload.RegisterIsEmptied | src/tokens.py:464-492 | once callbacks have run only unfinished loads are registered |
| TokenizerPreload.SuccessIsRemembered | src/tokens.py:512-514 | a successful load is not repeated before the next clear |
| Routing.FilterByEstimate | src/routing.py:106-128 | keeps, in order, exactly the candidates whose window holds the estimate |
| Routing.SortDownFacts | src/routing.py:215-225 | the sort returns the same candidates, best first |
| Routing.SortDownIsStable | src/routing.py:215-225 | ties keep their order |
| Routing.NoWorseNeverRanksBehind | src/routing.py:131-169 | a candidate no worse in score, wait, context and failures never ranks behind, under any preference |
| Routing.PointsCount | src/routing.py:131-169 | what a second, a thousand tokens, a failure and each bound are worth under each preference |
| Routing.RanksAheadIff | src/routing.py:164-169 | more points rank ahead; ties go to the score, the shorter wait, the larger context |
| Routing.PreferenceOrder | src/routing.py:213-225 | without a match candidates come in the order of preference, and ties in the order of the query |
| Routing.ExplicitFacts | src/routing.py:86-103 | the matches and the rest together are the eligible candidates |
| Routing.ExplicitIff | src/routing.py:86-103 | which candidates match a requested name, with and without ":free" |
| Routing.ExplicitOrder | src/routing.py:206-213 | matches first, then the others, both in the order of the query |
| Routing.AutoIsNotExplicit | src/routing.py:205-206 | no name, an empty one and "auto" match nothing |
| Routing.OrderedIsPermutation | src/routing.py:205-225 | the ordering rearranges the eligible candidates |
| Routing.PickIsSound | src/routing.py:198-244 | distinct eligible candidates for every integer limit, min(limit, eligible) of them when it is not negative |
| Routing.FallbackIsIncluded | src/routing.py:227-236 | for every integer limit, exactly when an eligible fallback is included; with a positive limit it costs at most the last place |
| Routing.HeadStaysFirstIff | src/routing.py:227-238 | for every integer limit, exactly when the head of the ordering is still first after the fallback and the cut |
| Routing.ExplicitFirstIff | src/routing.py:205-238 | for every integer limit, exactly when an explicitly requested model comes first |
| Discovery.VisitProvider | src/discover.py:116-185 | one upsert per reported model in order, then one mark-not-seen write carrying exactly the reported ids |
| Discovery.RunDiscovery | src/discover.py:108-201 | the writes queued, the count returned, and what an exception leaves behind |
| Discovery.VisitByRow | src/db.py:607-618 | what one provider's writes make of one row |
| Discovery.RunByRow | src/discover.py:123-185 | each row's fate depends on that row and the reports alone |
| Discovery.TableAfterRun | src/discover.py:123-185 | the table after the run in closed form |
| Discovery.ReportedColumns | src/discover.py:124-183 | the columns of a reported row: those reported last, active, just seen, and for a new row a clean history |
| Discovery.ActiveIsReported | src/discover.py:117-185 | a visited provider's active models are exactly those it reported |
| Discovery.UnvisitedIsUnchanged | src/discover.py:108-116 | rows of unvisited providers stay as they are, also after an exception |
| Discovery.HistoryIsKept | src/discover.py:133-155 | no row disappears, and failure count, back-off, cooldown and score survive |
| Discovery.SecondRunChangesNothing | src/discover.py:108-185 | a repeated run changes only the time a row was last seen |
| Paging.FetchOpenLlmScores | src/benchmarks.py:245-293 | terminates for every server within rows + 100 requests, succeeds unless a reply is hopeless, starts with the page size clamped to 1..100; against a contiguous server the result is the best score of every name over all rows, whatever the page sizes |
| Paging.FetchPage | src/benchmarks.py:261-277 | gives up only on a hopeless reply; learns a named limit from one refusal; halves the page against a server that names none smaller |
| Paging.BestIsMaximum | src/benchmarks.py:50-56 | the fold of updates is the maximum per name |
| Ranking.WeightedAverage | src/ranking.py:220-231 | the two loops compute the average over the available factors |
| Ranking.AverageIsBetween | src/ranking.py:220-231 | between the least and the greatest available factor |
| Ranking.ScalingIsIrrelevant | src/ranking.py:220-231 | scaling all weights by a positive constant changes nothing |
| Ranking.DominanceIsRespected | src/ranking.py:211-231 | no worse in every factor is no worse overall |
| Ranking.NormalizeIsMonotone | src/ranking.py:70-77 | normalization is monotone and maps the ends of the range to 0 and 1 |
| Ranking.FactorsOf | src/ranking.py:171-218 | every available factor lies in [0, 1] |
| Ranking.NoWorseNeverScoresLess | src/ranking.py:171-235 | a model no worse in anything measured never scores less |
| Ranking.AverageIs | src/ranking.py:211-231 | which weight goes with which factor, and that the score is their weighted mean |
| Ranking.AvailabilityIs | src/ranking.py:198-206 | what ill health, a cooldown, failures, back-off and successes cost or earn |
| Ranking.UsageIs | src/ranking.py:178-189 | what successes, requests and rate limits earn, and 0.5 for a model nothing is known of |
| Ranking.ColdStartIs | src/ranking.py:80-84 | a model with few requests is placed by its rank; if every rank is the first, at 0 |
| Ranking.BenchmarkIs | src/ranking.py:171-176 | the mean of the benchmarks that there are, each in its own range |
| Ranking.LatencyReferenceIs | src/ranking.py:191-193 | the first of four measurements that there is |
| Ranking.FeaturesAre | src/ranking.py:165-209 | a quarter for each feature |
| Ranking.RangesAreTight | src/ranking.py:122-148 | every range runs from the least to the greatest value of its own column |
| Ranking.PlacedInProportion | src/ranking.py:122-148 | over the rows themselves no value is clamped: each is placed in proportion between the least and the greatest of its column, both of which some row has |
| Ranking.Latencies | src/ranking.py:125-138 | the loop collects the positive latency references |
| Ranking.RecomputeRanking | src/ranking.py:118-239 | every score is 100 times the average of its factors, under the ranges of all rows, in [0, 100] for weights that are not negative |
| Ranking.EqualLatenciesScoreZero | src/ranking.py:70-77 | equal latencies all score 0, because the inverse of a point range is 0 |

## Left out

- SseFramer.EventStream: lines are valid UTF-8, so decoding and encoding again is the identity; transport errors of the HTTP client are not modelled.
- Ranking.RecomputeRanking: scores are exact and not rounded to four places.
- Throttle.BlocksAreJustified: the digest of a key is taken to be injective and the clock not to run backwards in lock order.
- ProbeBatch.DayRespectsBudget: batches that overlap, or a UTC day that ends inside a batch, are not covered; the code gives no guarantee there.
- Discovery.ActiveIsReported: provider names are distinct and an id belongs to one provider; two providers claiming one id are not covered.
- Proxy.ErrorFrom: which characters are digits, and the category of an error, are parameters.
- Proxy.RelayStream: cancellation of the generator by the server framework, token usage and latency values are not modelled.
- A failure or success recorded for a model whose row is missing changes nothing; the health model follows one existing row.
- The second framer in `src/providers/openrouter.py`: the same loop.
- Deactivating a model whose provider has disappeared, and the bootstrap selector, in `src/health.py`: single updates and an easier form of the same selection.
- SQL queries that filter and sort rows: their results are parameters.
- The two-worker limit of the tokenizer executor, and how repository names are guessed from a hint.
- Error categorization tables, model name normalization and other string tables: easy members only.
- Request parsing, authentication, settings, logging, the admin interface and the vault.
