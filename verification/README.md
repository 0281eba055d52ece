# Verified model of the messaging library

A Dafny model of the concurrent and error-handling core of the Go module
`digital.vasic.messaging`: the in-memory broker, the asynchronous and synchronous
producers, the batch consumer, consumer groups, retry with backoff, dead-letter
handling and error matching. `dafny verify dfyconfig.toml` checks the whole project.

## How it is organised

| file | models |
|---|---|
| `errors.dfy` | error values by address, the `errors.Is` walk with `BrokerError.Is`, classification, `MultiError` |
| `backoff.dfy`, `retry.dfy` | `RetryPolicy` arithmetic (real multiplier, whole nanoseconds); the `WithRetry` loop over arbitrary, nestable handlers |
| `registry.dfy` | the subscriber table with tombstones, and the plain publish/subscribe specification it refines |
| `message.dfy`, `inmemory.dfy`, `session.dfy` | messages, the broker and its clients on the heap: byte arrays and header maps shared by reference; every publisher and handler with what it can reach |
| `deadletter.dfy` | `DeadLetterHandler` and the retry-then-dead-letter composition |
| `group.dfy` | `ConsumerGroup` over any broker whose Subscribe and Unsubscribe may fail |
| `batch_model.dfy`, `batch.dfy` | `BatchConsumer`: the machine of interleaved goroutines, the object with its slice, and the goroutines at work on the object, each step a step of the machine |
| `async_model.dfy`, `async.dfy` | `AsyncProducer`: the machine, and the object whose every method is one of its steps |
| `sync.dfy`, `compare.dfy` | `SyncProducer.Send`; the runner's slice comparisons |

A machine's action is one critical section, one atomic operation or one channel operation
of one goroutine. `Exec(Init(n), acts)` is the state after the action sequence `acts`; an
action that is not enabled leaves the state alone, so every sequence is a schedule and
"for all `acts`" ranges over every interleaving of unboundedly many callers. A `select`
may take any ready branch; tickers, cancellation and Publish results are free inputs.
Fresh ids (`uuid`), clocks, handler outcomes and subscribe failures are parameters.

## What the code does that its documentation does not say

Each of these is proved, with the exact condition under which the documented wording holds
and, where it can fail, an input or schedule on which it does.

- `AsyncProducer.Stop` "drains pending messages" (docs/API_REFERENCE.md:816), but a Send caught
  between its running check and the channel is accepted after the drain has left and never
  published; a cancelled context lets the loop leave with everything still queued; and a Stop that
  overtakes a Start which has not counted its goroutine yet waits for nothing. Whatever is scheduled
  next, short of a later cancellation, the queue is empty once Stop has returned exactly when, as
  Stop clears the flag, no Send is past its check and nothing is queued if the context is cancelled
  or Start has not returned; if the context may still be cancelled, exactly when no Send is past
  its check and nothing is queued at all.
- `BatchConsumer.Stop` does not wait for the loop: it can return while the loop holds a batch
  the handler has not been called with. What was added before it has reached the handler exactly
  when no goroutine holds such a batch; a caller can rely on that, whatever is scheduled next,
  exactly when nothing is buffered and no batch held as Stop closes the channel.
- `WithRetry` consults `IsRetryableError` only together with the limit: permanent errors are
  retried too, `max(1, MaxRetries)` calls instead of `MaxRetries + 1`. With a negative limit the
  handler is never called and the message is reported as handled.
- `RetryPolicy.Delay(0)` is the base even when it exceeds the cap; the cap holds for every
  attempt exactly when the base is within it.
- `SyncProducer.Send` rewrites the caller's message, so sending it again after a failed publish
  compresses it again. One decompression gives the original back for every lossless compressor
  exactly when no publish of the message had failed.
- `BrokerError.Is` searches its cause and the standard walk then searches the same cause again:
  the result is that of a linear search, the cost of a miss doubles with every broker error.
- A failed group Start ignores the errors of its clean-up: it is all or nothing exactly when
  none of those unsubscribes fails, and can otherwise leave a live subscription the group forgets.
- `NewBatchConsumer` turns a size below one into 100, not into 1.

## Model

| member | source | states |
|---|---|---|
| Errors.Is | pkg/broker/errors.go:97-103 | the `errors.Is` walk calling `BrokerError.Is` at each broker error, as a loop with mutual recursion, returns true exactly when a linear search of the unwrap chain finds the target or a broker error with the target's code |
| Errors.BrokerErrorIs | pkg/broker/errors.go:97-103 | `BrokerError.Is` compares codes against a broker error target and otherwise answers for the cause alone |
| Errors.MatchesStep | pkg/broker/errors.go:93-103 | a match is at the head of the chain or in what it unwraps to |
| Errors.MatchesMeans | pkg/broker/errors.go:97-103 | a match is nil against nil, or some chain node at the very address of the target, or two broker errors with equal codes; contents are never compared |
| Errors.DoubledWalkIsExponential | pkg/broker/errors.go:92-103 | a miss on a chain of n broker errors visits 2^n - 1 nodes |
| Errors.GetBrokerErrorIsOutermost | pkg/broker/errors.go:124-131 | `GetBrokerError` returns the outermost broker error of the chain, and nil exactly when there is none |
| Errors.RetryableIffOutermostCode | pkg/broker/errors.go:74-82 | for errors built by `NewBrokerError`, retryable exactly when the outermost broker error's code is CONNECTION_FAILED, CONNECTION_TIMEOUT, PUBLISH_TIMEOUT or BROKER_UNAVAILABLE |
| Errors.ClassificationSurvivesWrapping | pkg/broker/errors.go:133-155 | any number of text wrappers or first places in MultiErrors changes neither retryable nor connection classification and loses no match |
| Errors.BrokerLayerDecides | pkg/broker/errors.go:105-155 | a new BrokerError hides its cause's classification: only its own code decides, by the four retryable and the four connection codes written out; only the three sentinel matches reach through |
| Errors.MultiError.Add | pkg/broker/errors.go:194-199 | appends the error, ignores nil |
| Errors.MultiError.ErrorOrNil | pkg/broker/errors.go:206-220 | nil exactly when nothing was added; unwraps to the first error |
| Errors.NonNilKeeps | pkg/broker/errors.go:194-199 | what is collected are the non-nil results, all of them, each once and in order |
| Errors.Collect | pkg/broker/errors.go:194-220 | collecting results is nil exactly when all are nil, else a non-nil error holding exactly the non-nil results in order |
| Backoff.CapHoldsIffBaseBelowCap | pkg/consumer/consumer.go:142-152 | no attempt's delay exceeds the cap exactly when the base does not |
| Backoff.DelayIsExponential | pkg/consumer/consumer.go:142-152 | attempt 0 waits the base; attempt a waits base times multiplier to the a, cut to whole nanoseconds, or the cap where that exceeds it |
| Backoff.PowAdds | pkg/consumer/consumer.go:147 | the powers behind it are powers: exponents add, the first is the multiplier |
| Backoff.DefaultDelays | pkg/consumer/consumer.go:132-140 | the default policy waits 100, 200, 400 ms, and 30 s from the ninth retry on |
| Backoff.NonDecreasingIffMultiplierAtLeastOne | pkg/consumer/consumer.go:142-152 | for a positive base within the cap, delays never shrink exactly when the multiplier is at least one |
| Backoff.StaysCapped | pkg/consumer/consumer.go:148-150 | once capped, every later delay is the cap |
| Backoff.TotalWaitAtMostCapTimesCount | pkg/consumer/consumer.go:142-152 | k waits take at most k times the cap |
| Backoff.GeometricSeries | pkg/consumer/consumer.go:147 | the exact sum of powers behind exponential backoff |
| Backoff.TotalWaitGeometric | pkg/consumer/consumer.go:142-152 | (m - 1) times the total of k waits is at most base times (m^k - 1), truncation included |
| Backoff.TotalWaitGeometricBelow | pkg/consumer/consumer.go:142-152 | while nothing is capped, (m - 1) times (the total of k waits plus k nanoseconds) is at least base times (m^k - 1) |
| Retry.WithRetry | pkg/consumer/consumer.go:160-186 | the loop, with its three exits and the select before every retry, computes the recursive specification for every handler, policy and cancellation |
| Retry.RetryExact | pkg/consumer/consumer.go:166-184 | without cancellation the calls stop at the first attempt that succeeds, is permanent with no retry left, or is the limit; result, call results and waits are exactly those of that run |
| Retry.StopsAfterUnique | pkg/consumer/consumer.go:166-184 | that condition fixes the number of calls |
| Retry.RetriedRelays | pkg/consumer/consumer.go:160-186 | retrying, cancelled or not, any handler that relays its innermost result within n calls relays it within (limit + 1) n calls |
| Retry.NestedRetriesMultiply | pkg/consumer/consumer.go:160-186 | any depth of nesting calls the handler at least once and at most the product of (limit + 1) times, whatever the outcomes and whenever the context is cancelled, and returns its final call's result or, only after a cancellation, the context's error |
| Retry.NestedNilMeansSuccess | pkg/consumer/consumer.go:160-186 | a nest that returns nil had a successful final call, cancelled or not; without cancellation it returns nil exactly then |
| Retry.NestedRetriesExact | pkg/consumer/consumer.go:166-184 | the bound is reached when all errors are retryable; with permanent errors it is the product of max(1, limit) |
| Retry.HandlerRunsIffLimitNonNegative | pkg/consumer/consumer.go:166 | the handler is called at all exactly when MaxRetries is not negative; otherwise the result is nil |
| Retry.CancellationYieldsPrefix | pkg/consumer/consumer.go:167-174 | a cancelled run is a prefix of the uncancelled one, and where it differs it returns the context's error from a wait |
| Retry.RetryCutExact | pkg/consumer/consumer.go:166-174 | exactly where cancellation cuts: at the first of the run's selects that finds the context cancelled it returns the context's error, after j + 1 calls and j waits for select j; if none does it runs to its end |
| Retry.CancelledContextStopsRetrying | pkg/consumer/consumer.go:167-174 | a context cancelled from the start ends a retryable run after one call, with no wait |
| Retry.RunWaitBounded | pkg/consumer/consumer.go:166-173 | a run, cancelled or not, waits once less than it calls, exactly the policy's delays, at most MaxRetries times the cap |
| Registry.DeactivateClearsOne | pkg/broker/inmemory.go:177-183 | the search loop of a handle's Unsubscribe clears that handle's entry and no other |
| Registry.PublishRefines | pkg/broker/inmemory.go:91-98 | delivering to active table entries is one delivery per live subscription of the topic, oldest first |
| Registry.StepRefines | pkg/broker/inmemory.go:37-146 | each operation on the tombstone table does what plain publish/subscribe does: same result, same deliveries, same live subscriptions; a second close panics and changes nothing |
| Registry.RunRefines | pkg/broker/inmemory.go:37-185 | the same over every sequence of operations, reconnects and repeated closes included |
| Registry.ExactlyOncePerPublish | pkg/broker/inmemory.go:77-100 | over any run, a subscription receives exactly the publishes made to its topic while it was live, once each, in order |
| Registry.DeliveriesReachTheirHandlers | pkg/broker/inmemory.go:91-98 | in any run a publish is delivered in the order of subscribing, each delivery to the handler that was subscribed to that topic |
| Registry.LiveIffIssuedAndNotEnded | pkg/broker/inmemory.go:115-185 | a subscription is live exactly when some Subscribe issued it and no handle unsubscribe, topic unsubscribe or effective close has followed |
| Registry.LiveImpliesHandleActive | pkg/broker/inmemory.go:167-191 | a subscription that still receives has an active handle for its topic |
| Registry.HandleInactiveIffUnsubscribed | pkg/broker/inmemory.go:167-191 | a handle is inactive exactly when it was itself unsubscribed; neither a topic unsubscribe nor a close touches its flag |
| Registry.ClosePanicsIff | pkg/broker/inmemory.go:46-57 | a close panics exactly when the broker is connected and was closed while connected before |
| Messages.Message.Clone | pkg/broker/broker.go:150-168 | equal contents, a nil header map stays nil, nothing shared with any existing object, key and value distinct |
| Messages.CopyBytes | pkg/broker/broker.go:155-160 | a new slice with the same bytes, empty for nil |
| Messages.CopyHeaders | pkg/broker/broker.go:161-166 | the copying loop over a map yields a new map with the same entries in any order |
| Messages.Message.SetHeader | pkg/broker/broker.go:121-136 | afterwards `GetHeader` answers the text for this name and for every other name what it answered before; the map is made if there is none, nothing else of the message changes |
| InMemory.InMemoryBroker.Publish | pkg/broker/inmemory.go:77-100 | queues a copy equal to the message but for topic and time, spawns exactly the specified deliveries each with a separate fresh copy, leaves all earlier queued messages as they were; not connected: error and no change |
| InMemory.InMemoryBroker.PublishBatch | pkg/broker/inmemory.go:103-112 | one recorded publish per message in order, the queue gains all stamped copies, and the goroutines started are those publishes' deliveries in order, each with its own copy of its message; not connected: the first publish fails and nothing is queued or started |
| InMemory.InMemoryBroker.Connect | pkg/broker/inmemory.go:37-43 | the connect step of the specification |
| InMemory.InMemoryBroker.Store | pkg/broker/inmemory.go:85-89 | the queue gains a fresh stamped copy |
| InMemory.Restamp | pkg/broker/inmemory.go:85-87 | a clone differing only in topic and time |
| InMemory.SpawnAll | pkg/broker/inmemory.go:91-98 | the delivery loop: one goroutine per active entry in table order, no two sharing any part of a message |
| InMemory.InMemoryBroker.Subscribe | pkg/broker/inmemory.go:115-135 | a fresh active handle and the specified table change, or the not-connected error |
| InMemory.InMemoryBroker.Unsubscribe | pkg/broker/inmemory.go:138-146 | the topic-wide unsubscribe of the specification |
| InMemory.InMemorySub.Unsubscribe | pkg/broker/inmemory.go:167-185 | the handle unsubscribe of the specification, leaving the queues alone |
| InMemory.InMemoryBroker.Close | pkg/broker/inmemory.go:46-57 | drops queues and subscribers; nothing when not connected; panics without change when the stop channel is already closed |
| InMemory.EnqueueIsolated | pkg/broker/inmemory.go:85-89 | appending an unshared copy keeps all queued messages disjoint and saying what was published |
| Sessions.Session.Publish | pkg/broker/inmemory.go:77-100 | each delivery spawned is a new client reaching exactly its own copy, which says what was published; nobody comes to reach the queued copy, and no other client reaches more than before |
| Sessions.Session.Perform | pkg/broker/broker.go:150-168 | any write by a publisher or handler to anything it can reach happens, and changes no queued message and no message any other client can reach |
| Sessions.QueuedMessagesSayWhatWasPublished | pkg/broker/inmemory.go:85-98 | in every state of a session - connects, subscribes, unsubscribes, publishes, closes and client writes in any order - each queued message equals the message as published but for topic and time, and no client reaches any part of it |
| Sessions.DeliveredCopiesSayWhatWasPublished | pkg/broker/inmemory.go:91-98 | in every such state each delivered copy equals the message as published but for topic and time until its own handler writes; it shares nothing with a queued message or with anything another client reaches |
| Sessions.Recruits | pkg/broker/inmemory.go:91-98 | goroutines spawned with copies nobody else has keep all clients separate from each other and from the broker |
| Sessions.Session.Share | pkg/broker/broker.go:150-168 | clients that start sharing memory count as one, and everyone else stays separate from them |
| Sessions.Session.Close | pkg/broker/inmemory.go:46-57 | a close keeps every client and copy as it was |
| DeadLetter.DlqCopyKeepsMessage | pkg/consumer/consumer.go:218-222 | the dead letter keeps id, key, value and all other headers and carries reason, original topic and time under their three header names |
| DeadLetter.DeadLetterHandler.Handle | pkg/consumer/consumer.go:215-238 | publishes exactly that copy to the dead letter topic: one recorded publish, its deliveries, one entry and one count more; or returns a wrapped error with nothing queued, started or counted; other topics and the message itself are untouched |
| DeadLetter.Annotate | pkg/consumer/consumer.go:219-222 | a clone with the three headers set |
| DeadLetter.RetryThenDeadLetter | challenges/runner/main.go:370-379 | success of the retried handler: nil, nothing published or counted; failure with the broker up: nil, one publish, one dead letter more and count one more; failure with it down: an error, nothing queued or counted |
| DeadLetter.StreamAccountsForEveryMessage | challenges/runner/main.go:370-379 | over any stream the queue gains one copy per dead-lettered message in order, Count grows by their number, and the three fates add up to the stream |
| DeadLetter.FatesMean | challenges/runner/main.go:373-378 | a position is handled exactly when its retried handler reports success, dead-lettered exactly when it does not and the broker is up, failed exactly when it does not and the broker is down |
| DeadLetter.PositionsAscend | challenges/runner/main.go:373-378 | each position is listed under its fate once, in order |
| DeadLetter.ProcessStream | challenges/runner/main.go:370-379 | a whole stream run through the handler object leaves queue and Count as the stream specification says, returns an error for exactly the messages whose handler failed while the broker was down, and changes no message |
| DeadLetter.HandledMeansSucceeded | pkg/consumer/consumer.go:164-185 | with a non-negative limit, a message whose fate is Handled had a final handler call that returned nil, cancellation or not |
| DeadLetter.NothingLostIffLimitNonNegative | pkg/consumer/consumer.go:166 | no message has fate Handled without a final successful call exactly when MaxRetries is not negative |
| Groups.ConsumerGroup.Start | pkg/consumer/consumer.go:60-83 | succeeds exactly when no Subscribe it makes is refused; then one new subscription per topic bound to its handler; otherwise not running, no subscriptions kept, and live are those from before plus exactly those made whose clean-up unsubscribe fails - none if and only if the broker fails none of the unsubscribes of the ids it issued |
| Groups.Broker.Subscribe | pkg/broker/inmemory.go:115-135 | one new live subscription, or an error and no change |
| Groups.Broker.UnsubscribeHandle | pkg/broker/inmemory.go:167-185 | exactly that subscription ends, or an error and no change |
| Groups.ConsumerGroup.Add | pkg/consumer/consumer.go:46-51 | registers or replaces the topic's handler |
| Groups.ConsumerGroup.Rollback | pkg/consumer/consumer.go:71-75 | the clean-up of a failed Start leaves exactly the subscriptions whose unsubscribe fails, and the live set restored if and only if there is none |
| Groups.ConsumerGroup.SubscribeAll | pkg/consumer/consumer.go:68-79 | the loop over the topics in any order up to the first refused Subscribe: one subscription per topic reached, with consecutive fresh ids |
| Groups.ConsumerGroup.UnsubscribeAll | pkg/consumer/consumer.go:94-99 | removes exactly the group's handles whose unsubscribe works, going on after failures |
| Groups.ConsumerGroup.Stop | pkg/consumer/consumer.go:86-102 | removes exactly the group's own subscriptions and forgets them; nil exactly when every unsubscribe worked |
| Groups.RollbackLeaves | pkg/consumer/consumer.go:70-76 | the clean-up restores the live set exactly when none of its unsubscribes fails; otherwise exactly the failed ones remain |
| Groups.FailedStartCanLeaveSubscription | pkg/consumer/consumer.go:70-76 | a broker on which a failed Start leaves a live subscription the group has forgotten |
| Groups.StartThenStop | pkg/consumer/consumer.go:53-102 | Start then Stop leaves the live set as it was, whether or not Start succeeded |
| BatchModel.NoLostWakeUp | pkg/consumer/consumer.go:286-338 | in every reachable state a full buffer has a token, a signaller or a flusher on its way; with nothing in progress and no token, fewer than batchSize messages are buffered |
| BatchModel.SignalMeansWasFull | pkg/consumer/consumer.go:289-297 | on every schedule a token, or a goroutine about to leave one, means the buffer held batchSize messages at some moment before: nobody signals below the batch size |
| BatchModel.FullBufferIsTaken | pkg/consumer/consumer.go:323-338 | from a quiescent state with a full buffer the loop's token branch is ready and its next two steps take exactly the buffer |
| BatchModel.OneWakeUp | pkg/consumer/consumer.go:323-337 | one undisturbed wake-up of the loop: any ready branch takes and hands over the buffer, a received token is gone, tick and token lead back to the select, stop and context branch out of the loop |
| BatchModel.ExactlyOnceInOrder | pkg/consumer/consumer.go:286-312 | batches in the order taken, then the buffer, are the Adds in lock order; none is empty; each is handed over at most once, and at least once or still with exactly one goroutine |
| BatchModel.StopFlushesEarlierAdds | pkg/consumer/consumer.go:341-347 | when a Stop that stopped a running consumer has returned, all messages added before it closed the channel are taken; with no Add since, the buffer is empty |
| BatchModel.StopDeliversIffNoBatchHeld | pkg/consumer/consumer.go:341-347 | when a Stop has returned, every batch with a message added before it closed the channel has reached the handler if and only if no goroutine still holds such a batch |
| BatchModel.StopDeliversAlwaysIff | pkg/consumer/consumer.go:341-347 | at the moment Stop closes the channel: on every continuation everything added so far has reached the handler when this Stop returns, if and only if nothing is buffered and no goroutine holds a batch |
| BatchModel.StopCanReturnBeforeHandover | pkg/consumer/consumer.go:341-347 | a schedule on which Stop returns while the loop holds a batch the handler has not seen |
| BatchModel.ConservedStep | pkg/consumer/consumer.go:286-312 | every step keeps taken batches plus buffer equal to the Adds |
| BatchModel.StopMarksStep | pkg/consumer/consumer.go:341-347 | every step keeps a Stop past its flush behind the taken messages |
| BatchModel.WakeUpStep | pkg/consumer/consumer.go:286-338 | every step of every goroutine keeps the wake-up invariant |
| BatchModel.HandedStep | pkg/consumer/consumer.go:301-312 | every step keeps each taken batch handed over once or held by exactly one goroutine |
| BatchModel.ClampBatch | pkg/consumer/consumer.go:268-270 | a usable batch size is kept, anything below one becomes 100 |
| BatchConsumers.BatchConsumer.AppendLocked | pkg/consumer/consumer.go:287-290 | append under the lock on the real slice, growing when full; asks for a flush exactly when the length has reached batchSize; batches already taken are not written |
| BatchConsumers.BatchConsumer.TrySignal | pkg/consumer/consumer.go:292-297 | after the select the channel holds its token |
| BatchConsumers.BatchConsumer.StartSwap | pkg/consumer/consumer.go:316-318 | only the first Start launches a loop |
| BatchConsumers.BatchConsumer.Add | pkg/consumer/consumer.go:286-298 | appends, and afterwards there is a token exactly when there was one or the length has reached batchSize |
| BatchConsumers.BatchConsumer.TakeBatch | pkg/consumer/consumer.go:301-309 | hands out exactly the buffered messages and installs a fresh slice; nothing when empty |
| BatchConsumers.BatchConsumer.Stop | pkg/consumer/consumer.go:341-347 | an undisturbed Stop: nothing unless running, panic on a second close, otherwise takes the buffer |
| BatchConsumers.AddAll | pkg/consumer/consumer.go:286-298 | any number of later Adds leave every taken batch as it was |
| BatchConsumers.Runtime.FlushStep | pkg/consumer/consumer.go:302-309 | under the lock a goroutine takes the buffer as the next batch, or is done when it is empty, as a step of the machine |
| BatchConsumers.Runtime.HandStep | pkg/consumer/consumer.go:311 | the handler is called with exactly the contents the batch had when taken, whatever was added since |
| BatchConsumers.Runtime.Act | pkg/consumer/consumer.go:286-347 | every action of any goroutine is done on the object's fields as the machine does it |
| BatchConsumers.Runtime.Interfere | pkg/consumer/consumer.go:286-347 | other goroutines take exactly the given actions, in order, and leave this one where it was |
| BatchConsumers.Runtime.Add | pkg/consumer/consumer.go:286-298 | an Add among other goroutines takes exactly the machine's turns until it is done |
| BatchConsumers.Runtime.Flush | pkg/consumer/consumer.go:301-312 | a Flush among other goroutines: lock, hand over, return, as consecutive turns of the machine, then back to its caller |
| BatchConsumers.Runtime.Loop | pkg/consumer/consumer.go:323-337 | the background loop as written, under any interference and any ready branches, takes exactly the machine's turns, flushes after every branch and leaves only after the stop or context branch |
| BatchConsumers.Runtime.Start | pkg/consumer/consumer.go:315-338 | only the goroutine that flips the flag becomes the loop, as turns of the machine |
| BatchConsumers.Runtime.Stop | pkg/consumer/consumer.go:341-347 | a Stop among other goroutines: swap, close, flush, as turns of the machine |
| BatchConsumers.Runtime.Guarantee | pkg/consumer/consumer.go:286-347 | the machine's guarantees for the object: nothing lost, taken batches still in their own arrays, no full buffer without a wake-up when nothing is in progress, and the handler then called once with every batch |
| AsyncModel.FifoAndConservation | pkg/producer/producer.go:285-330 | on every schedule finished attempts, then the message in flight, then the channel are the accepted Sends in order; counters match the attempts |
| AsyncModel.StopStrandsOnlyRacingSends | pkg/producer/producer.go:338-344 | once the loop has left through the drain - as when Stop returned, Start having returned first, without cancellation - accepted is sent plus failed plus queued, and at most the Sends Stop caught past the check are queued - none if none was caught |
| AsyncModel.StopCanStrandOneMessage | pkg/producer/producer.go:320-344 | a schedule on which a Send returns nil and its message stays in the queue of a stopped producer |
| AsyncModel.StopDrainsIff | pkg/producer/producer.go:338-344 | at the moment Stop clears the flag: on every continuation (without a later cancellation, or with any) the queue is empty once Stop has returned, if and only if no Send is past its check and nothing is queued if the context is cancelled (or may still be) or Start has not returned |
| AsyncModel.CancelledContextStrandsQueue | pkg/producer/producer.go:313-344 | a schedule on which a cancelled context leaves a message queued in a stopped producer although Stop caught no Send |
| AsyncModel.DrainCompleteIffNoSendPending | pkg/producer/producer.go:299-312 | once the drain has left an empty queue, it stays empty on every continuation exactly when no Send is between check and channel |
| AsyncModel.WorkLowersMeasure | pkg/producer/producer.go:285-330 | once the stop channel is closed every step of the loop or of a pending Send lowers the measure, whichever branch is picked, and no other step raises it |
| AsyncModel.DrainTerminates | pkg/producer/producer.go:299-312 | so no schedule lets them take more steps than the measure |
| AsyncModel.LoopAlwaysReady | pkg/producer/producer.go:285-317 | and the loop always has a ready step until it has left |
| AsyncModel.SelectTakesReadyBranch | pkg/producer/producer.go:287-315 | the outer select takes the oldest queued message, goes to the drain once the stop channel is closed, leaves once the context is cancelled, and waits only when the branch picked is not ready |
| AsyncModel.DrainTakesQueueThenLeaves | pkg/producer/producer.go:301-312 | the inner select takes the oldest queued message, or leaves when there is none |
| AsyncModel.DrainAfterStop | pkg/producer/producer.go:285-344 | from any reachable state after the stop channel is closed, whatever is scheduled, the loop and pending Sends take a bounded number of steps and the loop is never stuck before it leaves |
| AsyncModel.TurnLowersMeasure | pkg/producer/producer.go:285-317 | one turn of the goroutine after the close lowers the measure, whatever others do first, or it has left for good |
| AsyncModel.LoopLeavesAfterStop | pkg/producer/producer.go:285-317 | once the stop channel is closed the goroutine leaves within the measure's number of its own turns, whatever other goroutines do between them, whichever ready branch each select takes and whatever Publish returns |
| AsyncModel.StopBranchAlwaysReady | pkg/producer/producer.go:299 | once the stop channel is closed the stop branch is ready at every select, so a loop that takes it never waits |
| AsyncModel.ErrorChannelIsHonestSample | pkg/producer/producer.go:290-298 | errors read and buffered are an in-order part of the outer loop's failures and with the dropped ones all of them; nothing is lost up to the capacity; with no reader the first ones are kept |
| AsyncModel.ErrorDroppedIffChannelFull | pkg/producer/producer.go:292-295 | at every moment of every run the next step drops an error exactly when it offers one to a full channel; anything else offered is kept in order |
| AsyncModel.FifoStep | pkg/producer/producer.go:285-330 | every step keeps accepted = attempts + in flight + queued |
| AsyncModel.StrandedStep | pkg/producer/producer.go:320-344 | every step keeps pending plus late Sends within those Stop caught |
| AsyncModel.SampleStep | pkg/producer/producer.go:290-298 | every step keeps the error channel an honest sample |
| AsyncModel.LifecycleStep | pkg/producer/producer.go:276-344 | every step keeps the order of Start, Stop, drain and exit |
| AsyncModel.ClampBuffer | pkg/producer/producer.go:253-255 | a usable buffer size is kept, anything below one becomes 1000 |
| AsyncProducers.AsyncProducer.constructor | pkg/producer/producer.go:250-263 | a stopped producer with empty channels and the clamped size |
| AsyncProducers.AsyncProducer.Start | pkg/producer/producer.go:276-282 | only the caller that flips the flag launches the loop |
| AsyncProducers.AsyncProducer.CheckRunning | pkg/producer/producer.go:321-323 | the running check of Send, as a step of the machine |
| AsyncProducers.AsyncProducer.Receive | pkg/producer/producer.go:289-303 | either select takes the oldest queued message |
| AsyncProducers.AsyncProducer.StopSwapStep | pkg/producer/producer.go:339-341 | the swap in Stop; only one caller goes on |
| AsyncProducers.AsyncProducer.CloseStopCh | pkg/producer/producer.go:342 | the close, as a step of the machine |
| AsyncProducers.AsyncProducer.FinishStop | pkg/producer/producer.go:343 | Stop returns once the loop has left, or at once when Start has not counted it yet, and changes no counter or queue |
| AsyncProducers.AsyncProducer.ReadErrors | pkg/producer/producer.go:332-335 | a reader gets the oldest buffered error |
| AsyncProducers.AsyncProducer.Interfere | pkg/producer/producer.go:320-344 | other goroutines take exactly the given steps, in order, and the loop stays where it is |
| AsyncProducers.AsyncProducer.Send | pkg/producer/producer.go:320-330 | an undisturbed Send queues the message exactly when running with room left |
| AsyncProducers.AsyncProducer.TryEnqueue | pkg/producer/producer.go:324-329 | the non-blocking channel send, as a step of the machine |
| AsyncProducers.AsyncProducer.CountResult | pkg/producer/producer.go:290-297 | one counter moves by one according to the result, as a step of the machine |
| AsyncProducers.AsyncProducer.Report | pkg/producer/producer.go:292-295 | the error is kept while there is room and dropped otherwise |
| AsyncProducers.AsyncProducer.SendLoop | pkg/producer/producer.go:285-317 | the nested loops as written, under any interference, branch choices and results, produce exactly the schedule of turns the loop's phase dictates and watch until it leaves; it leaves by cancellation only when cancelled, by the drain only with an empty queue, and certainly within the measure's number of turns after the stop channel was closed |
| AsyncProducers.AsyncProducer.PublishOne | pkg/producer/producer.go:289-298 | the branch that takes a message: receive, publish, count and, on failure, offer the error, as consecutive turns |
| AsyncProducers.AsyncProducer.Drain | pkg/producer/producer.go:300-312 | the inner loop continues the same schedule of turns until the channel is empty: receive, publish and count, no error offered |
| AsyncProducers.AsyncProducer.StopGuarantee | pkg/producer/producer.go:338-344 | the machine's bound on stranded messages, for the object's own fields |
| AsyncProducers.AsyncProducer.StopPromise | pkg/producer/producer.go:338-344 | the condition under which a Stop called now drains the queue, on the object's own fields |
| SyncProducers.SyncProducer.Send | pkg/producer/producer.go:389-415 | a failed compression fails and counts the call with nothing published and the value kept; otherwise one publish is recorded, queued with its deliveries exactly when the broker is connected, and counted once; a value present gets its content type, compressed value and content encoding, everything else of the message and any message without a value is kept |
| SyncProducers.SyncProducer.Rewrite | pkg/producer/producer.go:395-407 | the two headers and the compressed value, each exactly when its serializer or compressor is set, there is a value and compression works; fails exactly when compression does |
| SyncProducers.EverySendCompressesAgain | pkg/producer/producer.go:399-407 | after n Sends of a message its value is compressed n times |
| SyncProducers.SendUntilUp | pkg/producer/producer.go:389-415 | n Sends to a broker that is down and one when it is up: n failures and one success counted, and what is queued has been rewritten n + 1 times |
| SyncProducers.ReceiverDecompressesOnce | pkg/producer/producer.go:399-412 | after n failed publishes one decompression gives the value compressed n times |
| SyncProducers.ResendRoundTripIff | pkg/producer/producer.go:399-412 | the receiver gets the original back, whatever lossless compressor is used, exactly when no Send of the message failed before |
| SyncProducers.ResendCanCorrupt | pkg/producer/producer.go:399-412 | a lossless compressor for which any number of failed attempts changes what every receiver reads |
| Compare.EqualAsMultiset | challenges/runner/main.go:506-521 | the counting loops with early exit return true exactly when the slices are equal as multisets |
| Compare.EqualSlices | challenges/runner/main.go:523-533 | true exactly when the slices are equal, which implies equal as multisets |

## Left out

- pkg/kafka and pkg/rabbitmq: configuration checks and injected publish functions, which only add easy members.
- Serializers, JSON, gzip, uuid and `SendValue`: a compressor is a pair of functions, a serializer its content type, an id the next unused number.
- Rendered error texts, i18n, metrics, options, `HealthCheck` and plain getters.
- Retry.WithRetry: the handler is a function of the run so far, so a handler that rewrites the message between attempts is not modelled.
- Backoff.TotalWaitGeometric: floating-point rounding and conversion of out-of-range floats are not modelled; the multiplier is a real number and durations are unbounded integers.
- AsyncModel.StopStrandsOnlyRacingSends: one Start and one effective Stop per producer; starting again after Stop is not a step of the machine, since the closed stop channel is never replaced.
- AsyncProducers.AsyncProducer.Start: a Start after a Stop, for the same reason.
- DeadLetter.ProcessStream: the broker may come up during a stream but is not closed, since closing drops the dead letter queue with all others.
- Sessions.Session.Publish: one message at a time; a batch is a sequence of such steps. Client code that hands objects to other client code counts as one client with it from then on.
- Registry.ExactlyOncePerPublish: counts the goroutines Publish spawns; when and in which order they run is up to the scheduler.
- Groups.ConsumerGroup.Start: calls on one group are serialised, because the running check is outside the lock; a failing unsubscribe leaves the subscription live.
- DeadLetter.DeadLetterHandler.Handle: the `onFailure` callback is not called, and `Count` is not limited to 64 bits.
- InMemory.InMemoryBroker.Publish: a slice is a whole array, so two slices that overlap inside one array are not modelled.
- Errors.Is: chains are finite values; a MultiError that contains itself is not modelled.
