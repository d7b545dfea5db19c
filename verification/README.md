# Verified model of the Osprey coordinator

This project models the concurrent core of the Osprey coordinator and proves what it
promises, in Dafny. `dafny verify dfyconfig.toml` checks the whole of it.

**Streaming pull manager.** Messages go from a Pub/Sub response into a hold with one queue
per ordering key, from there in flight under a processing limit, and their verdicts go
through ack chunks into requests. `PullOrdering` is the scheduler, `PullAcks` the id mapping,
chunks and requests, `PullProtocol` the state machine with one step per action of the main
loop and of its environment, and `PullTheorems` what holds over every run. `PullTraces` says
what a run's deliveries and verdicts become, and `PullShutdown` that a stop can always finish.
The classes
`MessagesOnHold`, `MessagesInFlight`, `MessageAckQueue`, `MessageAckGuard` and
`StreamingPullManager` have the program's fields and loops; each method is proved to be its
step, and `MainLoop` to be a run. `LeaseTiming` is the lease arithmetic.

**etcd watcher.** `EtcdModel` has the answers of etcd and the log they come from,
`RecursiveKeyWatcher` and `KeyWatcher` follow that log and compute diffs (`WatchEvents`) through
the loop of `WatchLoop`, `WatcherFanout` publishes to bounded queues, and `Watcher` puts the
loop, the fan-out and any number of consumers (`Subscribers`) together.

**Hash ring and routing.** `RingItems` builds and searches the ring, `RingWalk` has walks as
sequences, `HashRing` the lookups and membership changes, `Routing` overrides and the choice of
an instance, `FanOut` a request split over instances and merged again.

**Single-flight cache and worker protocol.** `CachedFutures`, `PriorityQueue` and
`WorkerProtocol` are state machines whose steps are what happens between two awaits or locks.

Conventions. Time is a natural number of milliseconds and is handed in; jitter is any value in
its range; the order in which a hash map is walked is any order; hashes are any function; which
of several equal items the library's binary search reports is any fixed choice. Acknowledgement
ids, subscription ids and chunk counters are unbounded. The answers of etcd are assumed to come
from one log (`Sound`, `Honest`): a watch reports the first entry after its index that can
change the watched tree, a get reports the tree at an index.

Where the program and its comments differ, the model follows the program:

- The buffer before a lease expires is described as 20% or five seconds, whichever is greater;
  the program takes the smaller, and so does `BufferMillis`.
- Watchers are described as emitting no event for a change that is not one; a directory created
  inside a watched tree is nevertheless emitted as a key with an empty value
  (`PhantomAtAnInput`); `RunFollows` and `AlwaysFollowsIff` say exactly when the log is followed.
- `find_n` is documented to find `num` nodes; it does not return when fewer nodes than that own
  an item (`FindNStuckAtAnInput`, `FindNEndsIffEnoughReplicate`), so `FindN` asks for that many.
- `find_index` looks for the next item after the key; with two items on the key's own index it
  may stop on one of them (`TieAtAnInput`, `SuccessorIffNoTie`).

## Model

| member | source | states |
|---|---|---|
| PullTheorems.ExactlyOnceSettlement | osprey_coordinator/src/pub_sub_streaming_pull/streaming_pull_manager.rs:554-624 | in every run, each delivery is id-mapped, waiting in a chunk, or in exactly one ack or nack request, and an internal id is settled once if and only if it is no longer mapped |
| PullTheorems.SettledAtExit | osprey_coordinator/src/pub_sub_streaming_pull/streaming_pull_manager.rs:717-776 | whenever the main loop may exit, every delivery was acked or nacked exactly once: the acks of a Pub/Sub id are the acks decided on deliveries that carry it, its nacks are the nacks decided on them plus those released by a stop |
| PullTheorems.OrderingKeys | osprey_coordinator/src/pub_sub_streaming_pull/messages_on_hold.rs:46-114 | in every run, per ordering key: dispatched is a prefix of received, at most one message is in flight, and before a stop a pending queue exists if and only if exactly one message is ready or in flight |
| PullTheorems.NoStuckMessage | osprey_coordinator/src/pub_sub_streaming_pull/streaming_pull_manager.rs:575-671 | after every step the ready queue is empty or the processing limit is used up; with a positive limit anything outstanding waits for a verdict that can still arrive |
| PullTheorems.ZeroLimitDispatchesNothing | osprey_coordinator/src/pub_sub_streaming_pull/streaming_pull_manager.rs:627-671 | with a limit of zero no run dispatches anything, so the positive limit above is needed |
| PullTheorems.StepOutstanding | osprey_coordinator/src/pub_sub_streaming_pull/streaming_pull_manager.rs:554-585 | only a verdict lowers on-hold plus in-flight, by exactly one, and it never grows without a response |
| PullTheorems.VerdictsDrain | osprey_coordinator/src/pub_sub_streaming_pull/streaming_pull_manager.rs:554-585 | in a run without new responses, as many verdicts as there were outstanding messages leave everything received dispatched and settled |
| PullTheorems.GracefulStopIsFinal | osprey_coordinator/src/pub_sub_streaming_pull/streaming_pull_manager.rs:717-763 | once a stop was accepted, in every continuation the stream stays closed, nothing is received or dispatched, and the mapped ids are those in flight |
| PullTheorems.MappedIsInFlight | osprey_coordinator/src/pub_sub_streaming_pull/streaming_pull_manager.rs:717-763 | after a stop the id mapping equals the in-flight ids |
| PullTheorems.KeyGoesOn | osprey_coordinator/src/pub_sub_streaming_pull/messages_on_hold.rs:95-114 | after a verdict on a message of a key, the very next message dispatched is the head of that key's pending queue, ahead of what was ready |
| PullTraces.ReceiptsAreDeliveries | osprey_coordinator/src/pub_sub_streaming_pull/streaming_pull_manager.rs:588-624 | in every run the messages and ids received are those of the deliveries that have a body, in order, an empty ordering key being none |
| PullTraces.MailInOrder | osprey_coordinator/src/pub_sub_streaming_pull/streaming_pull_manager.rs:406-527 | in every run the manager takes what was sent to it in order, decides only what those messages say, and has stopped if and only if one of them asked for it |
| PullTraces.RequestsAccounted | osprey_coordinator/src/pub_sub_streaming_pull/streaming_pull_manager.rs:766-776 | in every run each request made is still running in the background or has ended |
| PullTraces.EndToEnd | osprey_coordinator/src/pub_sub_streaming_pull/streaming_pull_manager.rs:406-527 | from the actions alone: when the main loop exits, every request has ended, a Pub/Sub id was acked once for each of its deliveries that the handler acked, and nacked once for each other delivery |
| PullShutdown.StopAccepted | osprey_coordinator/src/pub_sub_streaming_pull/streaming_pull_manager.rs:717-763 | accepting a stop closes the stream, empties the hold, leaves what is in flight, acks nothing and nacks every held delivery once |
| PullShutdown.Progress | osprey_coordinator/src/pub_sub_streaming_pull/streaming_pull_manager.rs:406-527 | after an accepted stop, in every reachable state short of the exit, some enabled action brings the exit nearer in a well-founded order |
| PullShutdown.StopCanFinish | osprey_coordinator/src/pub_sub_streaming_pull/streaming_pull_manager.rs:766-776 | after an accepted stop the exit is reachable from every reachable state |
| PullShutdown.ExitIsReachable | osprey_coordinator/src/pub_sub_streaming_pull/streaming_pull_manager.rs:717-776 | from every reachable state, asking for a stop can be followed by the exit of the main loop |
| PullProtocol.StepKeeps | osprey_coordinator/src/pub_sub_streaming_pull/streaming_pull_manager.rs:406-527 | every action of the main loop and of its environment keeps the agreement of hold, flight, id mapping, chunks, mailbox and handler guards |
| PullProtocol.RunKeeps | osprey_coordinator/src/pub_sub_streaming_pull/streaming_pull_manager.rs:406-527 | that agreement holds in every reachable state |
| PullProtocol.InitialInv | osprey_coordinator/src/pub_sub_streaming_pull/streaming_pull_manager.rs:342-403 | a new manager starts in agreement |
| PullProtocol.StoreAllKeeps | osprey_coordinator/src/pub_sub_streaming_pull/streaming_pull_manager.rs:588-624 | storing a response, entries without a body left out, keeps the agreement |
| PullProtocol.HandleVerdictKeeps | osprey_coordinator/src/pub_sub_streaming_pull/streaming_pull_manager.rs:554-585 | a verdict on an in-flight message keeps the agreement and ends saturated |
| PullProtocol.HandleGracefulStopKeeps | osprey_coordinator/src/pub_sub_streaming_pull/streaming_pull_manager.rs:717-763 | nacking everything on hold, in any order of the pending queues, keeps the agreement |
| PullProtocol.HeadInFlight | osprey_coordinator/src/pub_sub_streaming_pull/message.rs:62-76 | a verdict that the manager receives is about a message in flight |
| PullOrdering.AcceptKeeps | osprey_coordinator/src/pub_sub_streaming_pull/messages_on_hold.rs:46-72 | accepting a message keeps every per-key partition of received into dispatched, ready and pending |
| PullOrdering.DispatchOneKeeps | osprey_coordinator/src/pub_sub_streaming_pull/streaming_pull_manager.rs:627-671 | dispatching the front of the ready queue keeps the partition and the one-per-key slot |
| PullOrdering.FlushKeeps | osprey_coordinator/src/pub_sub_streaming_pull/streaming_pull_manager.rs:627-671 | a flush keeps the invariant and leaves the scheduler saturated |
| PullOrdering.FinishKeeps | osprey_coordinator/src/pub_sub_streaming_pull/streaming_pull_manager.rs:554-585 | finishing a message wakes the next of its key, or frees the key, and keeps the invariant |
| PullOrdering.DrainKeeps | osprey_coordinator/src/pub_sub_streaming_pull/messages_on_hold.rs:117-140 | draining the hold for a stop keeps the invariant |
| PullOrdering.FlushTakesFront | osprey_coordinator/src/pub_sub_streaming_pull/streaming_pull_manager.rs:627-671 | a flush moves exactly the first messages of the ready queue that the limit has room for into flight, in order |
| PullOrdering.HoldDisjoint | osprey_coordinator/src/pub_sub_streaming_pull/messages_on_hold.rs:16-27 | no message is on hold and in flight |
| PullOrdering.DrainedOnce | osprey_coordinator/src/pub_sub_streaming_pull/messages_on_hold.rs:117-140 | draining yields every held id once, in any order of the queues |
| PullOrdering.OneInFlightPerKey | osprey_coordinator/src/pub_sub_streaming_pull/messages_on_hold.rs:95-114 | two messages of one key are never in flight together |
| PullOrdering.DispatchedIsPrefix | osprey_coordinator/src/pub_sub_streaming_pull/messages_on_hold.rs:46-114 | dispatch order per key is a prefix of receipt order |
| PullOrdering.NothingStuck | osprey_coordinator/src/pub_sub_streaming_pull/streaming_pull_manager.rs:627-671 | a saturated scheduler with a positive limit and nothing in flight holds nothing |
| PullAcks.AppendQueues | osprey_coordinator/src/pub_sub_streaming_pull/message_ack_queue.rs:188-206 | an appended verdict is last in the waiting order, full chunks have exactly the chunk size and the current one fewer |
| PullAcks.EnqueueQueues | osprey_coordinator/src/pub_sub_streaming_pull/message_ack_queue.rs:188-206 | a verdict on a mapped id appends exactly one entry to the waiting order: an ack for an ack and a nack for a nack, with the Pub/Sub id of that mapping; one on an unknown id appends none |
| PullAcks.NextChunkTakes | osprey_coordinator/src/pub_sub_streaming_pull/message_ack_queue.rs:209-243 | a dispensed chunk is the front of the waiting order and what is left follows it |
| PullAcks.WaitingLength | osprey_coordinator/src/pub_sub_streaming_pull/message_ack_queue.rs:92-99 | the length computed from full and current chunk is the number of waiting verdicts |
| PullAcks.AckMessagesDeliver | osprey_coordinator/src/pub_sub_streaming_pull/streaming_pull_manager.rs:904-938 | the two requests made of a chunk ack and nack exactly its verdicts, as often as they occur |
| PullAcks.StoreKeeps | osprey_coordinator/src/pub_sub_streaming_pull/message_ack_queue.rs:161-184 | a stored delivery is mapped and counted once |
| PullAcks.EnqueueKeeps | osprey_coordinator/src/pub_sub_streaming_pull/message_ack_queue.rs:188-206 | a verdict moves its delivery from the mapping to the chunks |
| PullAcks.FlushChunkKeeps | osprey_coordinator/src/pub_sub_streaming_pull/streaming_pull_manager.rs:839-869 | a flushed chunk moves its deliveries from the chunks to the requests |
| PullAcks.RenewKeeps | osprey_coordinator/src/pub_sub_streaming_pull/streaming_pull_manager.rs:779-836 | a renewal settles nothing |
| PullAcks.ReleaseKeeps | osprey_coordinator/src/pub_sub_streaming_pull/streaming_pull_manager.rs:717-763 | nacking in batches settles each released delivery once |
| PullAcks.WhereDeliveriesAre | osprey_coordinator/src/pub_sub_streaming_pull/streaming_pull_manager.rs:554-624 | every delivery is counted in exactly one of mapping, chunks and requests |
| PullAcks.AllSettled | osprey_coordinator/src/pub_sub_streaming_pull/streaming_pull_manager.rs:766-776 | with mapping and chunks empty, the acks and nacks of a Pub/Sub id in the requests are counted by the verdicts decided on its deliveries and the releases |
| MessagesOnHold.MessagesOnHold.Push | osprey_coordinator/src/pub_sub_streaming_pull/messages_on_hold.rs:46-72 | pushes as specified while length and bytes stay the sums over the queues |
| MessagesOnHold.MessagesOnHold.PopReady | osprey_coordinator/src/pub_sub_streaming_pull/messages_on_hold.rs:75-92 | pops the front of the ready queue; counters never underflow |
| MessagesOnHold.MessagesOnHold.ActivateOrderingKey | osprey_coordinator/src/pub_sub_streaming_pull/messages_on_hold.rs:95-101 | readies the next message of a key or removes its empty queue |
| MessagesOnHold.MessagesOnHold.GetNextForOrderingKey | osprey_coordinator/src/pub_sub_streaming_pull/messages_on_hold.rs:103-114 | takes the head of the key's queue, and removes the queue when it was empty |
| MessagesOnHold.MessagesOnHold.DrainAndCollectAllAckIds | osprey_coordinator/src/pub_sub_streaming_pull/messages_on_hold.rs:117-140 | returns every held id once and leaves empty queues with zero counters |
| MessagesOnHold.AppendAckIds | osprey_coordinator/src/pub_sub_streaming_pull/messages_on_hold.rs:117-140 | appends the ids of a queue in order |
| MessagesInFlight.MessagesInFlight.Insert | osprey_coordinator/src/pub_sub_streaming_pull/messages_in_flight.rs:37-52 | adds the message and keeps the byte count the sum of the sizes, also when an id is replaced |
| MessagesInFlight.MessagesInFlight.Remove | osprey_coordinator/src/pub_sub_streaming_pull/messages_in_flight.rs:31-35 | removes the message and its bytes without underflow, or reports that there was none |
| MessageAckQueue.MessageAckQueue.TransformAndStoreAckId | osprey_coordinator/src/pub_sub_streaming_pull/message_ack_queue.rs:161-184 | gives the next id and pairs it with one delay entry |
| MessageAckQueue.MessageAckQueue.RemoveAckId | osprey_coordinator/src/pub_sub_streaming_pull/message_ack_queue.rs:254-265 | removes an id together with its own delay entry, never with a stale key |
| MessageAckQueue.MessageAckQueue.EnqueueAckOrNack | osprey_coordinator/src/pub_sub_streaming_pull/message_ack_queue.rs:188-206 | moves a mapped id into the chunks and ignores an unknown one; only the first verdict to wait sets the flush time |
| MessageAckQueue.MessageAckQueue.TakeChunk | osprey_coordinator/src/pub_sub_streaming_pull/message_ack_queue.rs:228-243 | gives a full chunk at once, the current one exactly from its flush time on, and nothing otherwise |
| MessageAckQueue.MessageAckQueue.CollectAckIdsThatNeedToBeRenewed | osprey_coordinator/src/pub_sub_streaming_pull/message_ack_queue.rs:105-159 | renews expired ids at most once each, up to the limit, into the future, and stops early only when none is left |
| MessageAckQueue.MessageAckQueue.RenewNext | osprey_coordinator/src/pub_sub_streaming_pull/message_ack_queue.rs:105-159 | renews one expired id to a time in the second half of the allowed delay, or finds that none is expired |
| MessageAckQueue.MessageAckQueue.PollExpired | osprey_coordinator/src/pub_sub_streaming_pull/message_ack_queue.rs:105-159 | yields an entry whose deadline passed if and only if there is one |
| MessageAckQueue.MessageAckQueue.Reschedule | osprey_coordinator/src/pub_sub_streaming_pull/message_ack_queue.rs:105-159 | moves one id to a new delay entry and keeps ids and entries in bijection |
| MessageAckQueue.MessageAckQueue.Len | osprey_coordinator/src/pub_sub_streaming_pull/message_ack_queue.rs:92-95 | the length is the number of waiting verdicts, full chunks counted by their fixed size |
| MessageAckQueue.PairedStore | osprey_coordinator/src/pub_sub_streaming_pull/message_ack_queue.rs:161-184 | storing keeps ids and delay entries in bijection |
| MessageAckQueue.PairedRemove | osprey_coordinator/src/pub_sub_streaming_pull/message_ack_queue.rs:254-265 | removing keeps the bijection |
| MessageAckQueue.PairedRenew | osprey_coordinator/src/pub_sub_streaming_pull/message_ack_queue.rs:105-159 | renewing keeps the bijection |
| MessageAckQueue.PassComplete | osprey_coordinator/src/pub_sub_streaming_pull/streaming_pull_manager.rs:779-836 | a pass that leaves nothing expired renewed exactly the expired ids, each once |
| MessageGuard.MessageAckGuard.DoSend | osprey_coordinator/src/pub_sub_streaming_pull/message.rs:62-76 | sends at most one verdict over the life of a guard |
| MessageGuard.MessageAckGuard.Drop | osprey_coordinator/src/pub_sub_streaming_pull/message.rs:88-92 | a guard dropped unused nacks, one already used sends nothing |
| MessageGuard.MessageAckGuard.AckAndDrop | osprey_coordinator/src/pub_sub_streaming_pull/message.rs:45-47 | an ack followed by the drop sends exactly one ack |
| MessageGuard.MessageAckGuard.NackAndDrop | osprey_coordinator/src/pub_sub_streaming_pull/message.rs:50-52 | a nack followed by the drop sends exactly one nack |
| MessageGuard.MessageAckGuard.MarkAckedElsewhereAndDrop | osprey_coordinator/src/pub_sub_streaming_pull/message.rs:55-59 | marking a guard sends nothing, then or at the drop |
| StreamingPullManager.StreamingPullManager.constructor | osprey_coordinator/src/pub_sub_streaming_pull/streaming_pull_manager.rs:342-403 | a new manager is the initial state of the protocol |
| StreamingPullManager.MakeAckMessages | osprey_coordinator/src/pub_sub_streaming_pull/streaming_pull_manager.rs:904-938 | the loop makes the ack and the nack request of a chunk, and none for an empty side |
| StreamingPullManager.StreamingPullManager.TransformAndInsertMessagesIntoMessagesOnHold | osprey_coordinator/src/pub_sub_streaming_pull/streaming_pull_manager.rs:588-624 | the loop over a response is the protocol's storing step |
| StreamingPullManager.StreamingPullManager.TryFlushMessagesOnHoldBatch | osprey_coordinator/src/pub_sub_streaming_pull/streaming_pull_manager.rs:627-671 | the batch loop is the protocol's flush, and the handler gets the batch in order |
| StreamingPullManager.StreamingPullManager.HandleStreamingPullResponse | osprey_coordinator/src/pub_sub_streaming_pull/streaming_pull_manager.rs:539-550 | refines the response step |
| StreamingPullManager.StreamingPullManager.HandleAckOrNack | osprey_coordinator/src/pub_sub_streaming_pull/streaming_pull_manager.rs:554-585 | refines the verdict step |
| StreamingPullManager.StreamingPullManager.HandleGracefulStop | osprey_coordinator/src/pub_sub_streaming_pull/streaming_pull_manager.rs:717-763 | refines the stop step; a second request is refused and changes nothing |
| StreamingPullManager.StreamingPullManager.NackAll | osprey_coordinator/src/pub_sub_streaming_pull/streaming_pull_manager.rs:717-763 | the batches of 2500 nack every id of the hold once |
| StreamingPullManager.StreamingPullManager.FlushAckOrNackChunk | osprey_coordinator/src/pub_sub_streaming_pull/streaming_pull_manager.rs:839-869 | refines the chunk step, and takes it exactly when a chunk is full or something waits and its flush time has come |
| StreamingPullManager.StreamingPullManager.HandleRenewLeases | osprey_coordinator/src/pub_sub_streaming_pull/streaming_pull_manager.rs:779-836 | terminates and renews exactly the expired ids once, in requests that settle nothing |
| StreamingPullManager.StreamingPullManager.RenewChunk | osprey_coordinator/src/pub_sub_streaming_pull/streaming_pull_manager.rs:779-836 | one request grants a lease, and each of its ids is scheduled for renewal, even a tick late, a second before that lease runs out |
| StreamingPullManager.StreamingPullManager.RecomputeMessageLeaseRenewalDurationSecs | osprey_coordinator/src/pub_sub_streaming_pull/streaming_pull_manager.rs:294-316 | sets the lease for the given percentile |
| StreamingPullManager.StreamingPullManager.HandleStreamingPullError | osprey_coordinator/src/pub_sub_streaming_pull/streaming_pull_manager.rs:871-888 | moves the channel to connecting and changes nothing else |
| StreamingPullManager.StreamingPullManager.ShouldStop | osprey_coordinator/src/pub_sub_streaming_pull/streaming_pull_manager.rs:766-776 | true exactly when a stop was accepted and nothing is in flight, waiting or running |
| StreamingPullManager.StreamingPullManager.OnEvent | osprey_coordinator/src/pub_sub_streaming_pull/streaming_pull_manager.rs:406-527 | each event does nothing exactly when the loop has stopped or finds nothing to do, which is said for every kind of event; otherwise it is the action of the protocol that the event stands for, and only a first waiting verdict sets the flush time |
| StreamingPullManager.StreamingPullManager.MainLoop | osprey_coordinator/src/pub_sub_streaming_pull/streaming_pull_manager.rs:406-527 | on any sequence of events the actions are the answers to the events, one by one and in order, none left out, and make a run of the protocol, so every theorem about runs is about this loop |
| StreamingPullManager.StreamingPullManager.OnMail | osprey_coordinator/src/pub_sub_streaming_pull/streaming_pull_manager.rs:406-527 | takes the next message and does nothing if and only if there is none or the loop has stopped |
| StreamingPullManager.StreamingPullManager.OnTick | osprey_coordinator/src/pub_sub_streaming_pull/streaming_pull_manager.rs:406-527 | renews exactly the leases due, each once, unless the loop has stopped |
| StreamingPullManager.FirstRenewalInTime | osprey_coordinator/src/pub_sub_streaming_pull/streaming_pull_manager.rs:588-624 | a stored delivery is first renewed one second after receipt, which even a tick late is inside any allowed lease |
| LeaseTiming.SetDurationPerLeaseExtension | osprey_coordinator/src/pub_sub_streaming_pull/flow_control.rs:73-95 | accepts exactly the settings with 10 <= min <= max <= 600 |
| LeaseTiming.LeaseIsClampedRoundUp | osprey_coordinator/src/pub_sub_streaming_pull/streaming_pull_manager.rs:294-316 | for every percentile the lease is within the bounds and rounds up to a whole second |
| LeaseTiming.FifthOf | osprey_coordinator/src/pub_sub_streaming_pull/streaming_pull_manager.rs:284-292 | the buffer is a fifth of the lease up to five seconds, the smaller of the two |
| LeaseTiming.BufferedRange | osprey_coordinator/src/pub_sub_streaming_pull/streaming_pull_manager.rs:284-292 | the range for the next renewal is not empty for any allowed setting |
| LeaseTiming.RenewalBeatsExpiry | osprey_coordinator/src/pub_sub_streaming_pull/streaming_pull_manager.rs:779-836 | for every percentile and allowed setting, the renewal plus one tick is a second earlier than the lease granted with it |
| LeaseTiming.RenewalSafeFromFiveSeconds | osprey_coordinator/src/pub_sub_streaming_pull/streaming_pull_manager.rs:284-292 | one tick of delay is safe if and only if the lease is at least five seconds |
| WatchEvents.DiffLowerBound | osprey_coordinator/src/etcd_watcherd/watcher_impl/recursive_key_watcher.rs:18-34 | incremental events that take one value to another are at least as many as the keys that differ |
| WatchEvents.DeltaIsShortest | osprey_coordinator/src/etcd_watcherd/api.rs:163-167 | the emitted events are the shortest list that reaches the new value, among incremental ones if they are incremental |
| WatchEvents.ExtendKeyByKey | osprey_coordinator/src/etcd_watcherd/watcher_impl/recursive_key_watcher.rs:321-363 | an event on a key not yet changed keeps one event per differing key |
| EtcdModel.PutAllExact | osprey_coordinator/src/etcd_watcherd/watcher_impl/recursive_key_watcher.rs:384-393 | collecting leaves with distinct keys gives each pair and nothing else |
| EtcdModel.LeavesAre | osprey_coordinator/src/etcd_watcherd/watcher_impl/recursive_key_watcher.rs:384-393 | a pair is among the leaves of a tree if and only if some node without children has that key and that value |
| EtcdModel.IrrelevantKeeps | osprey_coordinator/src/etcd_watcherd/watcher_impl/recursive_key_watcher.rs:244-262 | an entry neither inside the watched tree nor removing a directory around it leaves the subtree alone |
| EtcdModel.QuietKeeps | osprey_coordinator/src/etcd_watcherd/watcher_impl/recursive_key_watcher.rs:147-171 | skipping entries that are not relevant does not change the subtree |
| RecursiveKeyWatcher.CollectChildren | osprey_coordinator/src/etcd_watcherd/watcher_impl/recursive_key_watcher.rs:384-393 | the recursion over a node inserts its leaves in order |
| RecursiveKeyWatcher.CollectNodeChildren | osprey_coordinator/src/etcd_watcherd/watcher_impl/recursive_key_watcher.rs:367-401 | collects the leaves of a response into an empty map |
| RecursiveKeyWatcher.CollectsDirectory | osprey_coordinator/src/etcd_watcherd/watcher_impl/recursive_key_watcher.rs:367-401 | for a well-formed node the map is the listed directory and the capacity counted for it is exact |
| RecursiveKeyWatcher.ComputeSingleKeyDeleteEvents | osprey_coordinator/src/etcd_watcherd/watcher_impl/recursive_key_watcher.rs:267-285 | the events take the old value to the value without the key, minimally |
| RecursiveKeyWatcher.ComputeKeyUpdateEvents | osprey_coordinator/src/etcd_watcherd/watcher_impl/recursive_key_watcher.rs:289-316 | the events take the old value to the updated one, and there are none if it was equal |
| RecursiveKeyWatcher.ComputeDirDeleteEvents | osprey_coordinator/src/etcd_watcherd/watcher_impl/recursive_key_watcher.rs:222-264 | in any map order the events delete what is below the directory, with the right previous values; the root becomes empty by one full sync |
| RecursiveKeyWatcher.SyncChanged | osprey_coordinator/src/etcd_watcherd/watcher_impl/recursive_key_watcher.rs:325-348 | the first loop emits one event per new or changed key, in any map order |
| RecursiveKeyWatcher.DeleteUnvisited | osprey_coordinator/src/etcd_watcherd/watcher_impl/recursive_key_watcher.rs:350-356 | the second loop emits one deletion per key that is gone, with its value at that point |
| RecursiveKeyWatcher.ComputeResetEvents | osprey_coordinator/src/etcd_watcherd/watcher_impl/recursive_key_watcher.rs:321-363 | the events take the old value to the new one: each changes the replica, one per differing key, none if and only if nothing changed |
| RecursiveKeyWatcher.BeginWatching | osprey_coordinator/src/etcd_watcherd/watcher_impl/recursive_key_watcher.rs:77-98 | a missing key starts as an empty directory at the index of the error, other errors are passed on |
| RecursiveKeyWatcher.CallReset | osprey_coordinator/src/etcd_watcherd/watcher_impl/recursive_key_watcher.rs:100-145 | a reset moves to the value read with minimal events, or passes the error on |
| RecursiveKeyWatcher.CallWatch | osprey_coordinator/src/etcd_watcherd/watcher_impl/recursive_key_watcher.rs:147-217 | every watch outcome: reset on a cleared index or a plain read, timeout, error, or the changed value with minimal events |
| RecursiveKeyWatcher.RunLoopOnce | osprey_coordinator/src/etcd_watcherd/watcher.rs:192-249 | one iteration makes the transition of ResetsExactlyWhen and its events are the minimal delta between the two values |
| RecursiveKeyWatcher.ResetsExactlyWhen | osprey_coordinator/src/etcd_watcherd/watcher.rs:192-249 | the loop gives up its index if and only if etcd answers that it was cleared or with a plain read, and watches again if and only if a get succeeds or finds no key; any other failure leaves it as it was |
| RecursiveKeyWatcher.ResetHeals | osprey_coordinator/src/etcd_watcherd/watcher.rs:192-249 | whatever the value was, after a cleared index and any number of failing gets, the first that succeeds puts the loop on the log at the index of that get |
| RecursiveKeyWatcher.EntryHandled | osprey_coordinator/src/etcd_watcherd/watcher_impl/recursive_key_watcher.rs:173-206 | handling a response is performing its log entry on the subtree, plus the phantoms: directories taken for keys with an empty value |
| RecursiveKeyWatcher.WatchFollows | osprey_coordinator/src/etcd_watcherd/watcher_impl/recursive_key_watcher.rs:147-217 | a watch response keeps the value on the log if and only if it does not report the creation of a directory |
| RecursiveKeyWatcher.NextFollows | osprey_coordinator/src/etcd_watcherd/watcher.rs:192-249 | an iteration keeps the value on the log if and only if it does not read the creation of a directory, and never moves the index back |
| RecursiveKeyWatcher.NextMoves | osprey_coordinator/src/etcd_watcherd/watcher.rs:192-249 | from any state an iteration keeps the value equal to the subtree of the log plus exactly its phantoms |
| RecursiveKeyWatcher.ResetFollows | osprey_coordinator/src/etcd_watcherd/watcher_impl/recursive_key_watcher.rs:100-145 | a successful reset puts the value on the log whatever it was |
| RecursiveKeyWatcher.StartFollows | osprey_coordinator/src/etcd_watcherd/watcher.rs:129-171 | the first read starts the loop on the log |
| RecursiveKeyWatcher.RunFollows | osprey_coordinator/src/etcd_watcherd/watcher.rs:174-249 | in every reachable state, through changes, timeouts, errors and resets, the value is the watched subtree of the log at the wait index plus the phantoms left, so it is the subtree if and only if none is left |
| RecursiveKeyWatcher.AlwaysFollowsIff | osprey_coordinator/src/etcd_watcherd/watcher.rs:174-249 | a whole run stays on the log if and only if none of its iterations reads the creation of a directory |
| RecursiveKeyWatcher.NoDirectoryNoPhantom | osprey_coordinator/src/etcd_watcherd/watcher.rs:174-249 | on a log that makes no directory inside the tree no run reads one |
| RecursiveKeyWatcher.PhantomAtAnInput | osprey_coordinator/src/etcd_watcherd/watcher_impl/recursive_key_watcher.rs:192-206 | an input on which the loop leaves the log |
| RecursiveKeyWatcher.DirectoryMadeShowsAsKey | osprey_coordinator/src/etcd_watcherd/watcher_impl/recursive_key_watcher.rs:192-206 | a directory created inside the tree appears as a key with an empty value that the log does not have, and nothing else is wrong |
| KeyWatcher.ComputeDeltaEvent | osprey_coordinator/src/etcd_watcherd/watcher_impl/key_watcher.rs:46-59 | at most one event, none if and only if the value is unchanged, carrying the new value |
| KeyWatcher.RunLoopOnce | osprey_coordinator/src/etcd_watcherd/watcher.rs:192-249 | for one key, the events of an iteration are the delta between the two values |
| KeyWatcher.ResetsExactlyWhen | osprey_coordinator/src/etcd_watcherd/watcher_impl/key_watcher.rs:92-149 | the loop gives up its index if and only if etcd answers that it was cleared, and watches again if and only if a get succeeds or finds no key; any other failure leaves it as it was |
| KeyWatcher.ResetHeals | osprey_coordinator/src/etcd_watcherd/watcher_impl/key_watcher.rs:92-149 | after a cleared index and any number of failing gets, the first that succeeds puts the loop on the log at the index of that get |
| KeyWatcher.NextFollows | osprey_coordinator/src/etcd_watcherd/watcher_impl/key_watcher.rs:92-149 | every iteration keeps the value that of the key in the log |
| KeyWatcher.StartFollows | osprey_coordinator/src/etcd_watcherd/watcher_impl/key_watcher.rs:70-90 | the first read starts the loop on the log |
| KeyWatcher.RunFollows | osprey_coordinator/src/etcd_watcherd/watcher.rs:174-249 | log refinement for a single key, over every run |
| KeyWatcher.DeltaFolds | osprey_coordinator/src/etcd_watcherd/watcher_impl/key_watcher.rs:19-26 | a delta is what the fan-out asks of published events |
| WatcherFanout.WatcherInner.CreateSubscription | osprey_coordinator/src/etcd_watcherd/watcher.rs:50-65 | a new subscription starts empty at the current value and comes with a full sync of it |
| WatcherFanout.WatcherInner.RemoveSubscription | osprey_coordinator/src/etcd_watcherd/watcher.rs:94-98 | drops one subscription |
| WatcherFanout.WatcherInner.RecreateSubscription | osprey_coordinator/src/etcd_watcherd/watcher.rs:100-107 | replaces a subscription by a new one at the current value |
| WatcherFanout.WatcherInner.TrySendAll | osprey_coordinator/src/etcd_watcherd/watcher.rs:79-83 | in any order, every sender with room gets the event and the others are cut off |
| WatcherFanout.WatcherInner.DispatchNext | osprey_coordinator/src/etcd_watcherd/watcher.rs:75-91 | one event more: every queue has what it had room for of all events so far, and the history grows by the event |
| WatcherFanout.WatcherInner.UpdateSubscribers | osprey_coordinator/src/etcd_watcherd/watcher.rs:67-92 | every live queue gets the events it has room for, and stays live if and only if it has room for all |
| WatcherFanout.WatcherInner.Pop | osprey_coordinator/src/etcd_watcherd/api.rs:269-270 | gives the next event of the history that the subscription has not read |
| WatcherFanout.WatcherEvents.constructor | osprey_coordinator/src/etcd_watcherd/api.rs:183-196 | a consumer starts with a full sync of the current value |
| WatcherFanout.WatcherEvents.Next | osprey_coordinator/src/etcd_watcherd/api.rs:264-291 | the initial event, then the queue in order, then a wait if live; a consumer that was cut off drains its queue and is then synced to the current value |
| WatcherFanout.WatcherEvents.Drop | osprey_coordinator/src/etcd_watcherd/api.rs:228-236 | leaving removes only the own subscription |
| WatcherFanout.Converges | osprey_coordinator/src/etcd_watcherd/api.rs:238-291 | a live consumer that reads what it was sent holds the current value; one cut off has a gap-free stretch of the events and holds the value at its end |
| WatcherFanout.HistoryFold | osprey_coordinator/src/etcd_watcherd/watcher.rs:67-92 | replaying any stretch of the history takes the value before it to the value after it |
| Subscribers.Publish | osprey_coordinator/src/etcd_watcherd/watcher.rs:185-188 | publishing a value keeps every consumer consistent |
| Subscribers.Join | osprey_coordinator/src/etcd_watcherd/api.rs:183-196 | a new consumer is consistent and disturbs no other |
| Subscribers.ReadOne | osprey_coordinator/src/etcd_watcherd/api.rs:264-291 | a consumer reads the oldest event it was sent, or a full sync if it was cut off, waits if and only if it is live and has none, and all stay consistent |
| Subscribers.LeaveOne | osprey_coordinator/src/etcd_watcherd/api.rs:228-236 | a departure keeps the others consistent |
| Subscribers.Attend | osprey_coordinator/src/etcd_watcherd/api.rs:183-291 | a subscription adds one consumer, a read takes one event or reaches the current value, a departure removes that consumer; all others stay consistent and the value unchanged |
| Watcher.Iteration | osprey_coordinator/src/etcd_watcherd/watcher.rs:182-188 | an iteration is published to the subscribers and keeps every consumer consistent |
| Watcher.Serve | osprey_coordinator/src/etcd_watcherd/watcher.rs:174-188 | under any interleaving of iterations, subscriptions, reads and departures every consumer stays consistent and the published value is the loop's |
| Watcher.ConsumerFollowsLog | osprey_coordinator/src/etcd_watcherd/api.rs:128-196 | end to end: a subscribed consumer that reads what it was sent holds the watched subtree of the log plus the phantoms left, so the subtree if and only if none is left |
| Watcher.ServeKey | osprey_coordinator/src/etcd_watcherd/watcher.rs:174-188 | the same for a single key, under any interleaving |
| Watcher.KeyConsumerFollowsLog | osprey_coordinator/src/etcd_watcherd/api.rs:128-196 | end to end for a single key: a subscribed consumer that reads what it was sent holds the key's value in the log |
| RingItems.BuildRingItems | osprey_coordinator/src/hashring/mod.rs:96-109 | the ring is the replicas in the order of the node names, sorted by index without disturbing that order among equal indices |
| RingItems.RingCarries | osprey_coordinator/src/hashring/mod.rs:96-109 | the ring is sorted and holds every replica as often as it occurs |
| RingItems.DecimalReads | osprey_coordinator/src/hashring/mod.rs:100-105 | the numeral of a replica reads back as its number and has no leading zero |
| RingItems.ReplicaNamesDiffer | osprey_coordinator/src/hashring/mod.rs:100-105 | the replicas of a node are hashed under different names |
| RingItems.InNameOrder | osprey_coordinator/src/hashring/mod.rs:98-99 | the names are walked in order, each once |
| RingItems.OrderUnique | osprey_coordinator/src/hashring/mod.rs:66-67 | a set of names has one order |
| RingItems.FilterSorts | osprey_coordinator/src/hashring/mod.rs:106-107 | leaving items out before the stable sort or after it is the same |
| RingItems.BinarySearchSearches | osprey_coordinator/src/hashring/mod.rs:138-143 | binary search reports a position of the key, or where it would go |
| RingItems.Halves | osprey_coordinator/src/hashring/mod.rs:132-147 | the items up to a key are a prefix of the ring and the items beyond it are the rest |
| RingItems.LandsOnSuccessor | osprey_coordinator/src/hashring/mod.rs:132-147 | without a tie on the key's index every answer of the search leads to the clockwise successor |
| RingItems.SuccessorIffNoTie | osprey_coordinator/src/hashring/mod.rs:138-143 | the successor is found for every answer of the search if and only if no two items sit on the key's index |
| RingItems.TieAtAnInput | osprey_coordinator/src/hashring/mod.rs:138-143 | an input with a tie, on which an answer of the search leads past the successor |
| RingItems.FindIndex | osprey_coordinator/src/hashring/mod.rs:132-147 | an empty ring is an error, otherwise the index is valid |
| RingItems.NextIndex | osprey_coordinator/src/hashring/mod.rs:167-174 | the next index wraps around |
| RingWalk.DedupWithout | osprey_coordinator/src/hashring/mod.rs:232-235 | deleting a node and taking first occurrences commute |
| RingWalk.WithoutCut | osprey_coordinator/src/hashring/mod.rs:222-239 | in a list without repetition the first n names other than x are among the first n + 1 |
| HashRing.HashRing.WithNodes | osprey_coordinator/src/hashring/mod.rs:185-189 | the ring of a list of nodes, the last of a repeated name winning |
| HashRing.HashRing.SetNodes | osprey_coordinator/src/hashring/mod.rs:197-199 | replaces the nodes and rebuilds the ring |
| HashRing.HashRing.Add | osprey_coordinator/src/hashring/mod.rs:202-206 | adds a node or, for a known name, fails and changes nothing |
| HashRing.HashRing.Remove | osprey_coordinator/src/hashring/mod.rs:209-213 | removes a node or, for an unknown name, fails and changes nothing |
| HashRing.HashRing.Find | osprey_coordinator/src/hashring/mod.rs:217-219 | the first owner clockwise, or an error exactly for an empty ring |
| HashRing.HashRing.FindN | osprey_coordinator/src/hashring/mod.rs:222-239 | exactly the first min(num, nodes) different owners clockwise, without duplicates, whenever that many nodes own an item |
| HashRing.CollectOwners | osprey_coordinator/src/hashring/mod.rs:226-236 | the loop collects the first owners met going round from an index |
| HashRing.NearestOwner | osprey_coordinator/src/hashring/mod.rs:132-147 | a key belongs to the node of the least index beyond its hash, or of the least index of all if there is none beyond |
| HashRing.CollectedLast | osprey_coordinator/src/hashring/mod.rs:185-199 | of several nodes with one name the last one stays |
| HashRing.CollectedNames | osprey_coordinator/src/hashring/mod.rs:185-199 | the ring has exactly the names in the list |
| HashRing.OwnersReplicate | osprey_coordinator/src/hashring/mod.rs:96-109 | the nodes that own an item are those with a replica, and the ring is empty if and only if there is none |
| HashRing.EveryNodeOwns | osprey_coordinator/src/hashring/mod.rs:222-239 | with a replica for every node any number of nodes can be looked up |
| HashRing.LoopNeverEnds | osprey_coordinator/src/hashring/mod.rs:227-236 | asking for more nodes than own an item, the loop's guard holds after every pass |
| HashRing.LoopEndsIffEnoughOwners | osprey_coordinator/src/hashring/mod.rs:227-236 | the loop ends if and only if as many nodes own an item as are wanted |
| HashRing.FindNEndsIffEnoughReplicate | osprey_coordinator/src/hashring/mod.rs:222-239 | on a ring that is not empty the lookup ends if and only if as many nodes have a replica as min(num, nodes) |
| HashRing.FindNStuckAtAnInput | osprey_coordinator/src/hashring/mod.rs:222-239 | an input on which it does not end: two nodes asked for, of which one has no replica |
| HashRing.PassesTurn | osprey_coordinator/src/hashring/mod.rs:227-236 | up to one full turn the passes of the loop collect the first occurrences of the clockwise walk |
| HashRing.StrictIffHashesDistinct | osprey_coordinator/src/hashring/mod.rs:96-109 | the ring indices are distinct if and only if the hashes of all replicas are |
| HashRing.StrictHasNoTies | osprey_coordinator/src/hashring/mod.rs:132-147 | with distinct ring indices no key meets a tie, so the lookups are the reference for every key |
| HashRing.RemovedItems | osprey_coordinator/src/hashring/mod.rs:209-213 | removing a node takes its items off the ring and moves no other |
| HashRing.RemovalDeletesFromWalk | osprey_coordinator/src/hashring/mod.rs:209-213 | every key's walk loses the removed node and nothing else changes |
| HashRing.RemovalMovesOnlyOwnKeys | osprey_coordinator/src/hashring/mod.rs:209-219 | a key keeps its node unless that node was removed |
| HashRing.RemovalShiftsLookups | osprey_coordinator/src/hashring/mod.rs:209-239 | the lookup of n nodes after a removal is the lookup of n + 1 before it without the removed node, cut to n |
| HashRing.RemovalShiftsFound | osprey_coordinator/src/hashring/mod.rs:209-239 | the same of the names the lookups find, for every key that meets no tie and every answer of the search, whatever collides elsewhere |
| HashRing.NoTieKept | osprey_coordinator/src/hashring/mod.rs:209-213 | a key without a tie has none after a removal |
| HashRing.AdditionMovesOnlyToNewNode | osprey_coordinator/src/hashring/mod.rs:202-219 | a key keeps its node or moves to the added one |
| Routing.Ring.Select | osprey_coordinator/src/discovery/ring.rs:129-138 | the override if there is one, else the ring's owner, if any |
| Routing.Ring.SelectN | osprey_coordinator/src/discovery/ring.rs:146-165 | the override first, then the other nodes in ring order; the override alone if the ring is empty |
| Routing.OverrideFirst | osprey_coordinator/src/discovery/ring.rs:146-165 | with an override the result starts with it, has besides it exactly the names that the ring finds, and keeps their order |
| Routing.OneSourceOnly | osprey_coordinator/src/discovery/ring.rs:146-165 | without an override the result is what the ring finds, and on an empty ring it is the override alone or nothing |
| Routing.Retain | osprey_coordinator/src/discovery/ring.rs:157-158 | keeps every name but the override, in order |
| Routing.SelectIsHead | osprey_coordinator/src/discovery/ring.rs:129-165 | selecting one is selecting the first of any positive number, and one exists if and only if the other does |
| Routing.SelectNDistinct | osprey_coordinator/src/discovery/ring.rs:146-165 | no instance twice, and at most one more than asked for |
| Routing.SelectAmong | osprey_coordinator/src/discovery/watcher.rs:121-142 | with the instances read anew for every node, the loop returns the skip-th eligible one, or an error if there are fewer, and its 16-bit counter cannot overflow |
| Routing.AllOpenCounted | osprey_coordinator/src/discovery/watcher.rs:121-142 | there are as many eligible instances as nodes that are known, not excluded, and not draining unless that is tolerated |
| Routing.SelectsOpen | osprey_coordinator/src/discovery/watcher.rs:121-142 | the instance of such a node is the one selected by skipping as many as there are such nodes before it |
| Routing.ServiceWatcher.SelectKey | osprey_coordinator/src/discovery/watcher.rs:103-143 | all outcomes: no ring, nothing offered, too few eligible, or the skip-th eligible instance |
| Routing.SkipsDiffer | osprey_coordinator/src/discovery/watcher.rs:103-143 | over one snapshot different skip counts never give the same instance |
| FanOut.SplitKeys | osprey_coordinator/src/pigeon/grpc_client.rs:83-108 | every chunk has exactly the positions and keys that route to it, in order; the split fails if and only if a key cannot be routed, with the error of such a key |
| FanOut.Flatten | osprey_coordinator/src/pigeon/grpc_client.rs:173-181 | in any map order every reply is in the flattened list once |
| FanOut.Merge | osprey_coordinator/src/pigeon/grpc_client.rs:181-187 | sorting by position gives the replies in the order of the keys |
| FanOut.Call | osprey_coordinator/src/pigeon/grpc_client.rs:173-181 | succeeds if and only if every instance has a client and answers, and otherwise fails with the error of one that does not |
| FanOut.ChunkedUnaryUnary | osprey_coordinator/src/pigeon/grpc_client.rs:154-188 | fails if and only if routing, a client or an instance fails, with the error of a chunk that failed; otherwise returns the replies in the order of the keys |
| FanOut.FanOutIsPointwise | osprey_coordinator/src/pigeon/grpc_client.rs:154-188 | if instances answer key by key, the result is the pointwise answer for the original list, for every routing and map order |
| FanOut.CompleteIffAnswersAre | osprey_coordinator/src/pigeon/grpc_client.rs:176-181 | a reply is dropped without an error if and only if an instance answers for fewer keys than it was sent |
| CachedFutures.StepKeeps | osprey_coordinator/src/cached_futures/mod.rs:66-192 | every step keeps running resolvers and pending entries matched one to one |
| CachedFutures.RunKeeps | osprey_coordinator/src/cached_futures/mod.rs:66-192 | they match in every interleaving |
| CachedFutures.SingleFlight | osprey_coordinator/src/cached_futures/mod.rs:66-98 | in every interleaving at most one resolver of a key runs |
| CachedFutures.StartInv | osprey_coordinator/src/cached_futures/mod.rs:39-43 | an empty cache starts in agreement |
| CachedFutures.WaitersAgree | osprey_coordinator/src/cached_futures/mod.rs:66-98 | all callers served by one resolver get the same result, and every result is one of a resolver of the caller's key |
| CachedFutures.ResolveTouchesOwnEntry | osprey_coordinator/src/cached_futures/mod.rs:161-192 | a resolver that ends replaces or removes its own pending entry and no other |
| CachedFutures.OnlySuccessesCached | osprey_coordinator/src/cached_futures/mod.rs:175-187 | a cached value is one that a resolver of that key succeeded with |
| CachedFutures.FoundIsServed | osprey_coordinator/src/cached_futures/mod.rs:66-94 | a caller who finds an entry gets its value or waits for its resolver, and starts none |
| CachedFutures.ResolvedOncePerLoss | osprey_coordinator/src/cached_futures/mod.rs:66-192 | over every run a key is resolved once for every time it was lost, by a failure or a sweep, and once more if it is in the cache now |
| CachedFutures.DropBreaksPending | osprey_coordinator/src/cached_futures/mod.rs:129-132 | after an entry is removed by hand, single flight holds in every continuation if and only if the entry was not pending |
| CachedFutures.DropStartsSecond | osprey_coordinator/src/cached_futures/mod.rs:129-132 | after a pending entry is removed, the next caller starts a second resolver beside the first |
| CachedFutures.DropBreaksAtAnInput | osprey_coordinator/src/cached_futures/mod.rs:129-132 | an input on which two resolvers of a key run |
| CachedFutures.Cache.Lookup | osprey_coordinator/src/cached_futures/mod.rs:71-76 | the read-locked check is the protocol's step |
| CachedFutures.Cache.LookupOrStart | osprey_coordinator/src/cached_futures/mod.rs:80-94 | the write-locked check starts a resolver if and only if there is still no entry |
| CachedFutures.Cache.Finish | osprey_coordinator/src/cached_futures/mod.rs:173-189 | storing a success or removing a failure is the protocol's step |
| CachedFutures.Cache.RetainReady | osprey_coordinator/src/cached_futures/mod.rs:136-159 | sweeping keeps exactly the pending entries and the ready ones that are to be kept, unchanged, and counts what it disposed of |
| PriorityQueue.PriorityQueue.Send | osprey_coordinator/src/priority_queue.rs:123-133 | queues by priority, and fails exactly when the queue is closed |
| PriorityQueue.PriorityQueue.Recv | osprey_coordinator/src/priority_queue.rs:168-197 | the skip loop always consumes, and yields the first live synchronous action, else the first live asynchronous one |
| PriorityQueue.PriorityQueue.NackAllAsync | osprey_coordinator/src/priority_queue.rs:199-212 | empties the asynchronous queue in order |
| PriorityQueue.SyncFirst | osprey_coordinator/src/priority_queue.rs:173-183 | no asynchronous action is yielded while a live synchronous one is queued |
| PriorityQueue.AnswerIs | osprey_coordinator/src/priority_queue.rs:168-197 | a receive finds the queue closed if and only if it is and no synchronous action is live, and waits if and only if it is open and nothing is live |
| PriorityQueue.FirstLiveIsGot | osprey_coordinator/src/priority_queue.rs:168-197 | what is yielded is the first live action of its class |
| PriorityQueue.SkipsOnlyDead | osprey_coordinator/src/priority_queue.rs:184-193 | only actions without a requester are skipped, and none is yielded |
| PriorityQueue.TakesFromFront | osprey_coordinator/src/priority_queue.rs:168-197 | what is taken is the front of the two queues in order |
| PriorityQueue.TakesFronts | osprey_coordinator/src/priority_queue.rs:168-197 | what is taken is a front of the synchronous queue and then a front of the asynchronous one, the latter only when the former is used up |
| PriorityQueue.ReceiveCount | osprey_coordinator/src/priority_queue.rs:168-197 | a receive loses and doubles no action |
| WorkerProtocol.StepPlaces | osprey_coordinator/src/osprey_bidirectional_stream.rs:110-168 | every step leaves each action in as many places as it was |
| WorkerProtocol.StepKeeps | osprey_coordinator/src/osprey_bidirectional_stream.rs:110-281 | every step keeps each action in one place and each worker's outstanding action the last it was sent |
| WorkerProtocol.EveryActionInOnePlace | osprey_coordinator/src/osprey_bidirectional_stream.rs:110-281 | in every interleaving each action is in exactly one of the two queues, one worker, settled, dropped |
| WorkerProtocol.HeldOnce | osprey_coordinator/src/osprey_bidirectional_stream.rs:46-50 | an action a worker has is with no other worker and nowhere else |
| WorkerProtocol.AckSettlesLastSent | osprey_coordinator/src/osprey_bidirectional_stream.rs:73-168 | a verdict, in a request for an action or in a goodbye, settles exactly the action the worker was last sent, with that verdict; after the former the worker gets another action, after the latter its stream ends |
| WorkerProtocol.NothingElseSettles | osprey_coordinator/src/osprey_bidirectional_stream.rs:73-168 | without a verdict, or without an outstanding action, nothing is settled; an outstanding action is lost and the stream ends; an idle worker gets an action if and only if it sends the initial request |
| WorkerProtocol.SettlesIffVerdictGiven | osprey_coordinator/src/osprey_bidirectional_stream.rs:73-168 | a request settles the outstanding action with a verdict if and only if it carries that verdict, loses it if and only if it carries none, and is granted another action if and only if it carries one and is not a goodbye |
| WorkerProtocol.VerdictsAreGiven | osprey_coordinator/src/osprey_bidirectional_stream.rs:73-281 | in every run an action has a verdict if and only if some step gave it that one: the request of the worker it was last sent to, or the nack of the shutdown hook |
| WorkerProtocol.VerdictsAreFinal | osprey_coordinator/src/priority_queue.rs:77-81 | over every continuation a verdict is never changed |
| WorkerProtocol.FetchPrefersSync | osprey_coordinator/src/priority_queue.rs:168-197 | a worker is handed a live synchronous action whenever one is queued |
| WorkerProtocol.FifoOverRuns | osprey_coordinator/src/priority_queue.rs:168-212 | over every run the actions taken out of the queue of a class are a prefix of those submitted to it |
| WorkerProtocol.WorkerStreams.Take | osprey_coordinator/src/osprey_bidirectional_stream.rs:110-281 | every step of streams, requesters and shutdown hook is carried out as the protocol says |
| WorkerProtocol.WorkerStreams.Interleave | osprey_coordinator/src/osprey_bidirectional_stream.rs:196-281 | streams, requesters and shutdown hook in any interleaving make a run of the protocol, which takes every scheduled step that is possible when its turn comes and no other |
| WorkerProtocol.WorkerStreams.FetchOne | osprey_coordinator/src/osprey_bidirectional_stream.rs:128-142 | fetches the action the queue yields, and ends the stream if the queue is closed or none comes in time |
| WorkerProtocol.WorkerStreams.HandleIncoming | osprey_coordinator/src/osprey_bidirectional_stream.rs:110-168 | the exact steps for every kind of message: the request, then a fetch and a delivery exactly if it is granted an action; or a hang-up; or nothing for an error that is passed on |
| WorkerProtocol.WorkerStreams.StreamTask | osprey_coordinator/src/osprey_bidirectional_stream.rs:196-281 | a whole stream answers its messages one by one, in order, until it ends, hangs up after the last if it had not ended, and ends with nothing outstanding |
| WorkerProtocol.StreamLeavesOthers | osprey_coordinator/src/osprey_bidirectional_stream.rs:196-281 | a stream never touches another worker, and settled and dropped only grow |

## Left out

- HashRing.HashRing.FindN: requires that as many nodes have a replica as are looked up, or that none has, because the loop of the program does not end otherwise (`FindNEndsIffEnoughReplicate`).
- Routing.Ring.SelectN: has the same requirement, because it calls the ring's lookup.
- Routing.ServiceWatcher.SelectKey: has the same requirement, because it calls the ring's lookup; what the table of instances holds at each read is handed in.
- RecursiveKeyWatcher.RunFollows: refreshes of a directory's expiry are not in the log.
- WorkerProtocol.WorkerStreams.FetchOne: polls once and then gives up, because within this method nothing else happens; waiting through other streams' steps is in `Interleave`.
- WorkerProtocol.WorkerStreams.StreamTask: no other stream acts between its steps, because it is one stream by itself; any interleaving of streams is in `Interleave`.
- MD5 and the bytes taken from it: the hash is any function to the natural numbers.
- Flow control limits on held messages and bytes: the program keeps reading the stream over them and only reports that they are exceeded.
- Retries of background requests: a request counts as made when it is handed to the background task, which may give it up after ten attempts.
- Hard stop and abort of the manager, its heartbeats and metrics, and the latency histogram behind the percentile.
- gRPC, Kafka, Pub/Sub, KMS, HTTP and etcd clients and the server wiring.
- `run_etcd_watcher`, the loop that keeps the instance map, the announcer, and the reading and storing of ring configurations.
- Sweeping of watchers that nobody holds: only the cache's `retain_ready` is modelled.
- `CachedFutures::drop` as a step of the protocol: `DropBreaksPending` says exactly when single flight survives it; `fold` and `fold_ready` only read.
- The poll of `recv` is one step: an action that arrives between its look at the two queues counts as arriving after it. Asynchronous actions still queued when the queue is closed stay there.
- Retry counts, creation times and client details of actions, and the cached gRPC clients.
- The React interface, example data, plugins and the Postgres labels service.
