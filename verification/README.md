# Verified model of the distributed messaging system

The project models the protocol logic of the gateway, its RabbitMQ workers, the quorum recovery monitor, the rate
limiter and the load balancer, and proves what they guarantee over every input, every interleaving and every run.

**Task lifecycle.** `Messages.Script` gives, for each kind of queue, the operations one delivery causes; `Workers`
holds the delivery loops, branch by branch, each proved to emit exactly those scripts; `Workers.Due` says, operation
by operation, what a delivery calls for, and each script is proved to do just that, once and in order. `Lifecycle` is
the state machine in which every operation of every handler, every delivery, every TTL expiry and every death of a handler is
one atomic step of any number of concurrent tasks and workers. On it stand:

- `LifecycleSafety`, deaths of handlers included: no task that waits in a lasting queue is dropped, retry counts
  stay in 0..3, replies and copies stay with the request that owns them, and the client of a task that does not
  retry is told nothing but the status its form determines.
- `LifecycleRouted`: the queues of the exchange consumers are exclusive and vanish with their consumers. A routed
  task is answered or still alive iff fewer consumers died on it, before they answered, than it was routed to.
- `LifecycleIsolation`: the system is the product of its tasks.
- `LifecycleExact`, `LifecycleTheorems`: for tasks none of whose own handlers dies, the exact reply transcript and
  the exact number of live copies.
- `LifecycleStaffing`, `LifecycleDuplication`, deaths included: the exact largest number of live copies of a retrying
  task, given how many workers its retry queue has and how many of them die between republish and ack.
- `LifecycleAgreement`, `LifecycleLimits`: the final replies of a request agree exactly as long as no retry handler
  of it dies between handing the task over (or answering it for good) and its ack. Both halves are proved: no death
  outside that window does harm, and every handler inside it can be made to contradict itself by dying.
- `LifecycleTermination`: a measure over the whole broker decreases with every step and grows by a bounded amount
  with every death, so runs end, and where they end it is known who has been answered.
- `Ledger`: what each Prometheus counter counts along a run, exactly between deliveries and, when handlers die, up to
  what they still owed.

**Around it.** `Gateway` (path choice, producers, wait loop), `Topology` (what start-up declares, and that nacks,
expiries and publishes go where the lifecycle says), `ShardHash` (FNV-1a 32 as in draft-eastlake-fnv, section 2, and
its balance), `Autoscaler` (the worker count), `RateLimiter`, `LoadBalancer`, `QuorumRecovery` and `QuorumTheorems`.

Where the code and its documentation differ, the code is modelled. The repository's README.md lists retries with
exponential backoff and an edge from the retry worker to the dead-letter queue after the last failure; the code
retries without any growing delay and, at the limit, answers `dlq` and acks without publishing to that queue
(dead_letter_queues/delay_retry_worker.go:96-110). The retry queues are called delay queues
(dead_letter_queues/delay_setup.go:9), but each has a consumer of its own, so a message waits for its TTL only when
no worker takes it first.

Properties that turned out false of the code, with what holds instead:

- *All final replies of a task agree.* False of retrying tasks once handlers may die
  (`LifecycleLimits.OneCrashCanContradict`); `LifecycleAgreement.FinalsAgree` and
  `LifecycleLimits.ExposedContradicts` give the exact condition.
- *An accepted task is answered in the end.* False of tasks that an exchange routes
  (`LifecycleRouted.RoutedTaskLost`); `LifecycleRouted.RoutedIff` gives the exact condition.
- *A retrying task has at most two live copies.* False with several retry workers on a queue
  (`LifecycleDuplication.FourLiveCopies`), and false with one worker once that worker dies between its republish and
  its ack. With w workers on each retry queue, w at least 1, and d such deaths, a bound m holds in all runs iff m is at
  least 1 + d + min(w, 3 + 2d), and so two copies iff w is 1 and d is 0; with no worker at all there is one copy
  (`LifecycleDuplication.NeverMoreIff`).
- *The proxy answers 503 only if no backend is usable.* False as soon as another request draws one ticket in between
  (`LoadBalancer.OneForeignDrawRefuses`), and even of an undisturbed request when the 64-bit ticket counter wraps
  (`LoadBalancer.WrapRefuses`). True of a request iff no two of its tickets are congruent modulo the number of
  backends (`LoadBalancer.RefusedIff`, `LoadBalancer.CollisionRefuses`); `LoadBalancer.CollisionIff` and
  `LoadBalancer.UndisturbedIff` say when that is so.
- *Only dead nodes are recovered.* False: one failed container listing makes the monitor stop and forget a recovery
  node that is reported up (`QuorumTheorems.FailedListingStopsLiveNode`). A poll recovers only nodes that are not live
  iff no node it has not forgotten yet, and that is last reported up, is reported down by an earlier report or is a
  recovery node that has left the listing (`QuorumTheorems.OnlyDeadIff`).

## Model

| member | source | states |
|---|---|---|
| Workers.RetryDelivery | dead_letter_queues/delay_retry_worker.go:32-117 | below three attempts, one retry delivery replies `retry` with the next attempt, republishes with that count, then acks and counts, or nacks and counts nothing if the republish is refused; at three it replies `dlq`, acks and counts; nothing else, and in that order |
| Workers.DelayRetryWorker | dead_letter_queues/delay_retry_worker.go:31-118 | the retry loop handles its deliveries in order, and performs every operation as often as they call for it |
| Workers.ResilientDelivery | dead_letter_queues/dlq_worker.go:51-117 | a forced or drawn failure replies `dlq` and nacks; a success replies, counts, and acks last |
| Workers.ResilientWorker | dead_letter_queues/dlq_worker.go:49-118 | the resilient loop handles its deliveries in order, and performs every operation as often as they call for it |
| Workers.TaskDelivery | work_queue_model/worker.go:61-105 | a shard delivery replies and counts the reply if a reply queue is named, acks, and then counts the ack, the throughput of its worker and the latency, and last AckCount, each once |
| Workers.TaskQueueWorker | work_queue_model/worker.go:60-105 | the shard loop handles its deliveries in order, and performs every operation as often as they call for it |
| Workers.DlqConsumer | dead_letter_queues/dlq_consumer.go:70-93 | the dead-letter loop performs the scripts of its deliveries: reply, metrics, and only then ack |
| Workers.ExchangeConsumer | headers_exchange/consumer.go:52-82 | the loop that the headers, direct, topic and fanout consumers share: reply, ack, metrics |
| Workers.ReturnHandler | gateway/server.go:108-150 | the return goroutine tells the caller `dlq`, counts, and forwards body, reply queue and correlation ID to the dead letters |
| Workers.ScriptHandled | dead_letter_queues/dlq_worker.go:50-117 | every handler settles its delivery exactly once, and answers it exactly once, before that and to the queue it names, iff it names one |
| Workers.ScriptExact | gateway/server.go:112-148 | each of the six handlers performs exactly the operations its delivery calls for, with exact label, attempt, status and message, and in the order of its phases: reply, handover, ack, metrics, where resilient and dead-letter handlers ack after the metrics |
| Workers.PerformedOnce | dead_letter_queues/dlq_worker.go:110-116 | every operation occurs once if it is called for, and never otherwise: one MsgsAcked per ack, one throughput under the handler's label and one latency per delivery that is not nacked, none for a nack, none acked for a returned message |
| Gateway.Producer.AutoDetectAndPublish | gateway/server.go:391-460 | exactly one message, the one its form calls for, is published iff it is sent at all; success is also reported for a retry task whose publish failed; the three counters move accordingly |
| Gateway.LaunchExact | gateway/server.go:391-459 | by the form fields alone, the exchange, routing key and message that are published: retry, then fail, headersJSON, wildcards, any other routing key, broadcast, and for none of these the shard of the task's hash |
| Gateway.SentExact | gateway/server.go:410-416 | a submission reaches the broker iff the broker takes it and, where headersJSON decides, that decodes |
| Gateway.Producer.SendToRetryQueue | dead_letter_queues/delay_retry_producer.go:11-31 | the first retry message carries count 0 and goes to the shard's retry queue; it is counted only if published |
| Gateway.Producer.PublishToResilientQueue | dead_letter_queues/dlq_producer.go:9-30 | the message demands failure, and is counted even if the publish fails |
| Gateway.Producer.PublishToExchange | topic_exchange/producer_topic.go:9-33 | the four exchange producers share it: one mandatory publish to the exchange of that kind, so that an unroutable message comes back |
| Gateway.Feedback | gateway/server.go:357-379 | the wait loop's result is the first own, non-interim reply, and none only if there is none |
| Gateway.AwaitFeedback | gateway/server.go:362-379 | the loop over the reply queue computes exactly that reply |
| Gateway.FeedbackStable | gateway/server.go:362-377 | replies that arrive later never change what the client is told |
| LifecycleSafety.ScriptShape | dead_letter_queues/delay_retry_worker.go:50-116 | every handler answers before it hands its task over, hands over before it settles, and passes on the reply queue, correlation ID and body it was given |
| LifecycleSafety.StepInv | dead_letter_queues/delay_retry_worker.go:50-116 | the invariant of the protocol survives every event, the death of a handler between any two of its operations included, whether its delivery is requeued or vanishes with its queue |
| LifecycleSafety.AtLeastOnce | dead_letter_queues/delay_retry_worker.go:50-116 | after every run, every accepted task that no exchange routed has a final reply or a live copy, and every count in a retry queue is in 0..3 |
| LifecycleRouted.RoutedExact | headers_exchange/consumer.go:19-82 | every copy that an exchange routed waits, has been answered with success, or was lost when its consumer and exclusive queue died, and never two of these |
| LifecycleRouted.RoutedIff | topic_exchange/consumer.go:18-77 | a routed task has a final reply or a live copy iff fewer of its consumers died before answering than it was routed to |
| LifecycleRouted.RoutedTaskLost | direct_exchange/consumer.go:18-74 | every routed task has a run in which each of its consumers takes it, dies, and nobody ever answers |
| LifecycleSafety.CorrelationIsolation | gateway/server.go:310-377 | every reply in a reply queue belongs to the request that owns the queue, and the wait loop returns its first non-interim element even if correlation IDs collide |
| LifecycleSafety.RefinesOracle | gateway/server.go:391-460 | every interleaving of a task that does not retry tells its client only the status its form and routing determine, and all its replies agree |
| LifecycleSafety.OracleExact | gateway/server.go:391-459 | that status is success iff neither retry nor fail is asked for, and the task is either plain or routed to some queue |
| Lifecycle.StartExact | gateway/server.go:391-459 | by the form fields alone, the queue a task starts in, and in how many copies |
| Lifecycle.DeathExact | dead_letter_queues/delay_retry_worker.go:13-21 | a death gives the delivery back to its queue unchanged iff the handler had neither acked nor nacked it and the queue outlives the handler, and touches nothing else |
| LifecycleIsolation.StepIsolated | gateway/server.go:310-377 | a step taken for a request is the same step of a system serving it alone; any other step is invisible to it |
| LifecycleExact.StepExact | dead_letter_queues/delay_retry_worker.go:50-116 | one carrier, counts of live copies all different, and the transcript the carrier's position calls for survive every event but the death of the request's own handlers |
| LifecycleExact.RunExact | dead_letter_queues/dlq_worker.go:54-86 | the exact view of a request holds after every run that harms none of its handlers |
| LifecycleExact.CrashFreeUnharmed | gateway/server.go:162-196 | a run in which nobody dies harms no request, so all that is proved of unharmed requests holds of every request of it |
| LifecycleTheorems.RetryTranscripts | dead_letter_queues/delay_retry_worker.go:50-110 | the replies of a retrying task are retry(1), ..., retry(k), k at most 3, then at most one final reply, which is `dlq` only if k is 3 |
| LifecycleTheorems.SmoothRetry | dead_letter_queues/delay_setup.go:28-32 | without a TTL expiry or a refused republish the complete transcript is retry(1), retry(2), retry(3), `dlq` |
| LifecycleTheorems.CopyConservation | dead_letter_queues/delay_retry_worker.go:71-89 | one carrier until settled and none after; the other live copies are exactly the retry deliveries between republish and ack, at most as many as retry workers hold, and at most three |
| LifecycleTheorems.AnswerIsFinal | gateway/server.go:362-377 | whatever happens afterwards, deaths included, the client would be told the same |
| LifecycleAgreement.FinalsAgree | dead_letter_queues/delay_retry_worker.go:71-110 | all final replies of a request have one status in every run in which no retry handler of it dies between handing over, or answering for good, and its ack |
| LifecycleLimits.ExposedContradicts | dead_letter_queues/delay_retry_worker.go:71-110 | in every reachable state with a retry handler in that window, its death as the very next event can lead, without another, to a task answered both `success` and `dlq` |
| LifecycleLimits.OneCrashCanContradict | dead_letter_queues/delay_retry_worker.go:71-89 | every retrying task has a run with a single death in which it is answered both ways |
| LifecycleStaffing.OneWorkerContradicts | gateway/server.go:178-181 | so it is with a single worker on each retry queue and no other task |
| LifecycleStaffing.StaffedBound | dead_letter_queues/delay_retry_worker.go:31-91 | with w workers on each retry queue, an unharmed retrying task has at most 1 + min(w, 3) live copies |
| LifecycleDuplication.DuplicatedBound | dead_letter_queues/delay_retry_worker.go:71-89 | in every run, deaths included, with w workers on each retry queue, w at least 1, and d deaths of a retrying task's handlers between republish and ack, it has at most 1 + d + min(w, 3 + 2d) live copies |
| LifecycleDuplication.MostAttained | dead_letter_queues/delay_retry_worker.go:71-89 | for every w and d, and every retrying task, some run has exactly that many, and no other death |
| LifecycleDuplication.NeverMoreIff | gateway/server.go:178-181 | at most w workers and d such deaths keep every retrying task at or below m live copies iff m is at least that number; two copies iff there is one worker and no such death, or no worker |
| LifecycleDuplication.FourLiveCopies | dead_letter_queues/delay_retry_worker.go:71-89 | without any death, one retrying task can have four live copies, three of them republished and not acked |
| LifecycleTermination.StepTerminates | dead_letter_queues/delay_retry_worker.go:32-117 | the measure over all copies strictly decreases with every step that is neither a submission nor a death |
| LifecycleTermination.BoundedRuns | dead_letter_queues/dlq_worker.go:50-117 | once submissions stop, a run in which k handlers die has at most Measure + 31 * k steps |
| LifecycleTermination.Quiescence | dead_letter_queues/dlq_consumer.go:71-92 | where no step is left, no message is left and every accepted task is answered, a routed one once for each of its queues that was not lost, an unharmed one with its complete transcript |
| Ledger.StepBalanced | work_queue_model/worker.go:93-104 | at every event, deaths included, whatever a counter has moved beyond what it stands for is exactly what handlers in the middle of a delivery owe, and what dying ones take with them |
| Ledger.LedgerAgrees | work_queue_model/worker.go:86-104 | between deliveries, up to what dead handlers owed: MsgsAcked and the throughput of all labels but the return handler's both equal the acked deliveries, latency observations these and the returned messages, publishedCount twice the returned ones, AckCount the acked shard deliveries, and these their replies |
| Ledger.LedgerExact | dead_letter_queues/dlq_consumer.go:87-91 | each of eight counters reads how often what it stands for was done along the run, up to what handlers that died in a delivery owed, which is nothing if nobody died |
| Ledger.ScriptBalances | gateway/server.go:112-136 | each handler as a whole moves every counter by as much as it did of what the counter stands for |
| Topology.Broker.DeclareShards | gateway/server.go:79-95 | declares the shard queues in order; it fails iff one of them exists with other arguments |
| Topology.Broker.SetupRetryQueues | dead_letter_queues/delay_setup.go:26-56 | declares and binds one expiring queue per shard, or fails exactly when the broker refuses one |
| Topology.Broker.StartUp | gateway/server.go:84-195 | start-up performs the 17 declarations of named queues and the four of queues the broker names, and binds nine of them, or fails exactly when the broker refuses a named one |
| Topology.Broker.DeclareConsumers | direct_exchange/consumer.go:18-41 | each exchange consumer gets a fresh queue of its own, bound to its exchange |
| Topology.AcceptedIff | gateway/server.go:84-95 | consistent declarations are accepted iff each queue is absent or already has the same arguments, and they change no other queue |
| Topology.StartupAccepted | work_queue_model/worker.go:36-44 | the places that declare the same queue agree, so start-up fails only over a foreign queue and a second gateway can start |
| Topology.QueuesExact | dead_letter_queues/dlq_consumer.go:29-36 | after start-up, by name: shard and resilient queues are quorum queues that dead-letter to dlx_exchange, retry queues expire to their shard after 5000 ms, the dead-letter queue and the consumers' queues neither expire nor dead-letter; no other queue has changed |
| Topology.BindingsExact | direct_exchange/consumer.go:34-40 | start-up makes just nine bindings, with these keys and exchanges |
| Topology.StartupEdges | dead_letter_queues/delay_setup.go:28-32 | after start-up, nacks and expiries go where the lifecycle says, only retry queues expire (5000 ms), and a republish comes back to its queue |
| Topology.LaunchArrives | dead_letter_queues/dlq_producer.go:10-18 | after start-up, the first publish of a retrying, failing or sharded task reaches the queue the lifecycle starts it in |
| Autoscaler.CountLedger | work_queue_model/worker.go:32-153 | at every moment of every interleaving, WorkerCount is starts plus burst per queue found too deep, less the rest of the burst in progress, less closed channels: exactly if that is an int32, else modulo 2^32 |
| Autoscaler.WorkerPool.StartTaskQueueWorker | work_queue_model/worker.go:30-33 | one atomic step adds one for a started worker; the largest int32 wraps to the smallest |
| Autoscaler.WorkerPool.ChannelClosed | work_queue_model/worker.go:107-109 | one atomic step takes one off for a worker whose channel closes; the smallest int32 wraps to the largest |
| Autoscaler.WorkerPool.Tick | work_queue_model/worker.go:132-153 | whatever others start and close in between, the tick's own steps are one inspection per queue, each followed by a burst iff it found the queue too deep |
| ShardHash.KnownDigests | gateway/server.go:48-52 | the digests that draft-eastlake-fnv lists for the empty key, "a" and "foobar" |
| ShardHash.PickShardIsAutomaton | gateway/server.go:48-52 | the 32-bit FNV-1a digest modulo 4 is a two-bit automaton over the bytes modulo 4 |
| ShardHash.CongruentKeysCollide | gateway/server.go:48-52 | keys that agree byte by byte modulo 4 share a shard |
| ShardHash.PrefixBalance | gateway/server.go:48-52 | after any prefix, exactly 64 of the 256 next bytes lead to each shard |
| ShardHash.ShardBalance | gateway/server.go:48-52 | exactly a quarter of the 256^n keys of length n goes to each shard |
| RateLimiter.RateLimiter.Allow | limiter/rate_limit.go:30-49 | the call is let through iff the run of calls that ends in it is no longer than the limit; the store goes on holding every key's run length and other keys are untouched |
| RateLimiter.RateLimiter.Serve | limiter/rate_limit.go:30-49 | in every interleaving of calls for any keys, each call is answered as its place among its own key's calls says |
| RateLimiter.RunIsMaximalSuffix | limiter/rate_limit.go:33-37 | the stored count is the length of the longest suffix of the key's calls, denied ones included, with every gap below the window |
| RateLimiter.WindowBound | limiter/rate_limit.go:33-48 | any interval of one window lets at most the limit of calls through |
| RateLimiter.InterleavedBound | limiter/rate_limit.go:33-48 | in every interleaving of all keys, a span T lets at most limit * (T / window + 1) calls of a key through |
| RateLimiter.NeverPausing | limiter/rate_limit.go:37-48 | a client that never pauses for a whole window is let through exactly its first limit calls, and never again |
| LoadBalancer.Balancer.GetNextBackend | load_balancer.go:22-29 | one atomic 64-bit increment picks the backend; an empty list costs no ticket |
| LoadBalancer.TicketExact | load_balancer.go:19-28 | a draw adds one up to 2^64 - 1, after which the counter starts over at 0 |
| LoadBalancer.Balancer.Register | load_balancer.go:64-81 | an address is appended iff it is not empty and not listed, so the list stays free of duplicates |
| LoadBalancer.Balancer.Prune | load_balancer.go:44-61 | a round leaves exactly the healthy backends, in order |
| LoadBalancer.Balancer.Proxy | load_balancer.go:84-133 | among any draws of other requests, the request tries the backends its own tickets stand for, in order, and is forwarded to the first usable one, or gets 503 after one ticket per backend |
| LoadBalancer.HealthyKeeps | load_balancer.go:49-57 | pruning keeps a backend iff it was listed and passes, and introduces no duplicate |
| LoadBalancer.HealthyInOrder | load_balancer.go:49-57 | the pruned list is an order-preserving subsequence |
| LoadBalancer.CoverageIff | load_balancer.go:101-103 | whatever other requests draw in between, a request tries every backend iff no two of its tickets are congruent modulo their number |
| LoadBalancer.CollisionIff | load_balancer.go:28-28 | short of a wrap, two tickets collide iff the number of backends divides the number of draws between them |
| LoadBalancer.RefusedIff | load_balancer.go:101-132 | a request gets 503 iff no backend it tries is usable; without colliding tickets, iff none at all is |
| LoadBalancer.CollisionRefuses | load_balancer.go:101-132 | with colliding tickets, a request that exactly one backend could serve gets 503 |
| LoadBalancer.OneForeignDrawRefuses | load_balancer.go:28-28 | with two backends or more, a single draw of another request between any two attempts makes such a refusal possible, without any wrap |
| LoadBalancer.UndisturbedIff | load_balancer.go:101-103 | the tickets of an undisturbed request do not collide iff the 64-bit counter does not wrap among them or the number of backends divides 2^64 |
| LoadBalancer.ProxyAnswers | load_balancer.go:101-132 | under that condition an undisturbed request goes to the first usable backend in cyclic order after the last ticket, and gets 503 iff none is usable |
| LoadBalancer.WrapRefuses | load_balancer.go:101-132 | without it, even an undisturbed request that exactly one backend could serve gets 503 |
| LoadBalancer.Fairness | load_balancer.go:28-28 | over any k draws by any requests without a wrap, each of n backends is chosen floor or ceiling of k / n times |
| QuorumRecovery.ExtractExact | quorum_recovery/handler.go:263-269 | the container is what follows the '@' of a name with exactly one, and nothing for a name with none or more |
| QuorumRecovery.Monitor.UpdateExpectedNodes | quorum_recovery/handler.go:35-54 | the old list is kept as previous; the new one is what QuorumTheorems.InExpected and ListingParts say of the listing, or nothing after a failed one |
| QuorumRecovery.Monitor.CheckQuorumStatus | quorum_recovery/handler.go:173-250 | the four passes recover exactly the nodes they detect, in order, and stop at a failed fetch |
| QuorumRecovery.Monitor.TriggerRecovery | quorum_recovery/handler.go:271-383 | every call is counted; a new named node is recovered through one of three exits with exactly the listed effects, any other is left alone |
| QuorumRecovery.Monitor.ForgetWithBackoff | quorum_recovery/handler.go:325-357 | the loop tries, sleeps and doubles up to the limit, and reports whether its last try succeeded |
| QuorumRecovery.Monitor.PollOnce | quorum_recovery/handler.go:165-169 | one turn refreshes the list and then checks the cluster against it |
| QuorumRecovery.Monitor.StartQuorumMonitor | quorum_recovery/handler.go:157-171 | the poll loop takes the books and the expected list where the run theorems say, poll by poll |
| QuorumTheorems.LiveIsLastReport | quorum_recovery/handler.go:190-192 | a node is live iff its last report says that it runs |
| QuorumTheorems.InExpected | quorum_recovery/handler.go:45-52 | a node is expected iff some listed container whose name starts with /rabbit stands for it |
| QuorumTheorems.ListingParts | quorum_recovery/handler.go:45-52 | each listed container adds its own node, once and in order, iff its name starts with /rabbit |
| QuorumTheorems.ReportParts | quorum_recovery/handler.go:191-197 | each report of a node that is not running triggers one recovery of that node, in order |
| QuorumTheorems.NameParts | quorum_recovery/handler.go:200-205 | each name that is not live triggers one recovery, in order |
| QuorumTheorems.VanishedParts | quorum_recovery/handler.go:207-219 | each previous recovery node that is not expected any more triggers one recovery, in order |
| QuorumTheorems.QueueParts | quorum_recovery/handler.go:233-249 | the queues are checked in order, each for itself |
| QuorumTheorems.QueuePart | quorum_recovery/handler.go:234-248 | a quorum queue triggers a recovery for each dead member, or for its dead leader if it has no members; no other queue does |
| QuorumTheorems.PollExact | quorum_recovery/handler.go:191-249 | after a poll a node is forgotten iff it was before, or one of the four passes has grounds: reported down, expected and not live, a recovery node gone from the list, or a dead member or leader of a quorum queue |
| QuorumTheorems.TurnExact | quorum_recovery/handler.go:35-250 | the same for a whole turn by the container listing it starts with, which also decides what the next turn takes for expected before |
| QuorumTheorems.TurnsConcat | quorum_recovery/handler.go:165-169 | polls are taken one after the other, in order |
| QuorumTheorems.TriggerOrder | quorum_recovery/handler.go:285-288 | of two new nodes, the one whose turn comes first is recovered first |
| QuorumTheorems.PassesInOrder | quorum_recovery/handler.go:191-249 | within a poll, a node that an earlier pass detects is recovered before one that only a later pass does |
| QuorumTheorems.OnlyDeadIff | quorum_recovery/handler.go:191-249 | a poll newly forgets only nodes that are not live iff no node it has not forgotten, last reported up, is reported down earlier or a recovery node gone from the list |
| QuorumTheorems.FailedListingStopsLiveNode | quorum_recovery/handler.go:37-43 | from the start, one good poll and one with a failed listing suffice to stop and forget a recovery node that both report as running |
| QuorumTheorems.RecoverOnce | quorum_recovery/handler.go:285-383 | over every run, forgotten only grows, each forgotten node has exactly one complete recovery and one replacement attempt, and failures <= forgotten <= recoveries counted |
| QuorumTheorems.RecoverOnceFromStart | quorum_recovery/handler.go:30-33 | that accounting holds after every run from the empty start |
| QuorumTheorems.BackoffBound | quorum_recovery/handler.go:325-357 | for every limit m, failure pattern and jitter, the loop makes t <= m tries, t the first success or m, and sleeps 2^(t-1)-1 seconds plus at most 499 ms per sleep |
| QuorumTheorems.FiveFailures | quorum_recovery/handler.go:325-350 | with five tries, a node that cannot be forgotten costs at least 15 and less than 17 seconds of sleep |
| QuorumTheorems.RecoveryExact | quorum_recovery/handler.go:320-382 | effect by effect, the recovery of `host@container`: stop, tries with doubled back-offs up to the first success or the fifth, on success removal of the container and of its `-data` volume right after, and last the replacement |
| QuorumTheorems.UnnamedExact | quorum_recovery/handler.go:290-317 | a node without a container is tried once and then replaced, and nothing else is done |
| QuorumTheorems.ForgetsIff | quorum_recovery/handler.go:293-357 | a recovery counts as failed iff none of its five tries succeeds, or without a container its only one does not |
| QuorumTheorems.BackoffExact | quorum_recovery/handler.go:325-357 | try by try, the log of the loop: try j, then, unless it was the last, a sleep of 2^(j-1) seconds and its jitter |
| QuorumTheorems.RunRemovesIff | quorum_recovery/handler.go:332-371 | over every run, a container and its volume are removed iff a node of that container was recovered and one of five tries to forget it succeeded |
| QuorumTheorems.RunRemovesSafely | quorum_recovery/handler.go:332-365 | over every run, a container is removed only right after its own node was successfully forgotten |

## Left out

- AMQP, Docker, Redis and HTTP client calls: their effects are steps with an environment-chosen outcome.
- Publish errors of replies and of the return handler's forward, and ack errors: these calls always succeed here; the source ignores most of them. The first publish and the republish can fail.
- The order of a queue: any ready copy may be delivered next, so copies are one map with a queue each instead of a sequence per queue. This admits more runs than the broker has.
- Lost connections, publisher confirms, start-up before `dlx_exchange` is bound, exchange declarations, the durable, exclusive and auto-delete flags of queues, and prefetch.
- Topic and headers matching inside RabbitMQ: a task carries the number of queues its exchange routed it to. User headers of a headers message are not carried, and headersJSON of `null`, on which the producer panics, counts as undecodable.
- The moment at which an exchange queue vanishes: its copies are lost one by one, in any order, which admits more runs than a broker that deletes them all at once.
- The death of the return handler: a notification is not requeued, so the handler is taken to finish. The gateway's own death, which takes the reply queues with it, is not modelled either.
- Retry headers as int64 or float64: only int32 headers and their absence occur in messages the system itself sends. The `x-death` header is not modelled.
- Workers.ExchangeConsumer: one loop stands for four consumers that differ in their throughput label only.
- Ledger.LedgerAgrees: MsgsPublished is the part that shard workers add; what the gateway adds is in Gateway.Producer.AutoDetectAndPublish. Throughput is kept as two sums, over the return handler's label and over all others; LiveWorkers, whose update is not atomic with the counter's, DLQMessages and QuorumRecoveryDuration's values are left out.
- Autoscaler.WorkerPool.Tick: the burst is not negative; the log file is left out.
- RateLimiter.RateLimiter.Allow: calls whose transaction returns an error, of which the outcome at the store is unknown; a key counts as gone as soon as the whole window, in ms, has passed since its last call.
- LoadBalancer.Balancer.Proxy: the health of the backends is fixed while a request lasts. The recursive read lock is not modelled.
- QuorumRecovery.Monitor.TriggerRecovery: panics, the random number in a replacement's name (any name is allowed), the steps of creating a replacement, whose attempt is one effect, and the failures of stop and remove calls, which the source only logs.
- QuorumRecovery.Monitor.ForgetWithBackoff: the back-off is an unbounded number of ms, not an int64 of ns; containers without a name, on which the listing panics, are left out too.
- JWT and OAuth2, MongoDB, the HTTP front end, metrics pages, `main.go`, `flood.go`, `testing_shards.go`, and the superseded `tester.go`, `resilient.go`, `gateway/gateway_consumer.go`, `gateway/publish.go` and `gateway/rabbitmq_conn.go`: no protocol logic of their own.
