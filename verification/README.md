# A verified model of gz-transport

This project models four parts of gz-transport in Dafny and proves what they
promise: the UDP discovery protocol, the per-process registry of
subscriptions and service calls, topic names and liveliness tokens, and the
log recorder, query generator, playback and statistics. `dafny verify
dfyconfig.toml` checks everything; nothing is executed.

Objects that the C++ code updates in place are classes here, with one method
per source method. Each such method is tied to a function on values, and the
theorems are about those functions, so that they range over whole runs and
over several processes. Where the C++ iterates over a `std::map` or
`std::unordered_set` in a way that cannot be seen from outside, the model
takes the elements in an arbitrary order; where it can be seen, as in
`FirstHandler`, in the order of the keys.

## Files

| file | models |
|---|---|
| `TopicNames`, `LivelinessTokens`, `Strings` | qualified names, their decomposition and clean-up; tokens and packed type lists |
| `TopicStore` | the table topic, process, publishers |
| `DiscoveryProtocol` | one process: what a datagram, a user call, a sweep does and sends; no orphans |
| `DiscoveryService` | the discovery object, method by method |
| `DiscoveryNetwork` | N processes with relays and lossy, reordering delivery: every burst dies out, relays reach the other group, advertisements find subscribers |
| `DiscoveryAgreement` | two processes with in-order delivery: B ends up with exactly A's visible publishers |
| `DiscoveryTiming` | the reception loop against the clock: silent processes go in time, live ones never; regular heartbeats keep a peer alive |
| `HandlerStore` | the three-level handler storage and the flat table it refines |
| `Registry`, `RegistryService` | subscriptions, topic lists, central Zenoh subscribers, node teardown, `TopicList` |
| `PubQueue` | the queue of the publish thread, the message it has taken, and the removal of handlers |
| `ServiceCalls` | pending requests over ZeroMQ: sent once, answered once |
| `Throttle` | rate limits of subscriptions and publishers |
| `Descriptors`, `LogStore`, `LogService` | the log's tables, the two indexes, cached ids and times |
| `QueryText`, `Queries`, `QueryMeaning` | statements as tokens with a parser and evaluator, their generators, and that they mean a filter |
| `MessageIterator` | iteration over a batch of statements |
| `Playback` | the playback thread interleaved with pause, resume, step, seek and stop |
| `RecorderQueue` | the queue between callbacks and data writer |
| `RunningStats` | Welford's algorithm against the definition, bounds, dropped-message counting |
| `Options`, `MessageTypes` | shared types and names |

## Where a promised property needs a condition

In each case the code is modelled as it is, and the exact condition is proved.

- `Node::Unsubscribe` qualifies the topic as given while subscribing
  qualifies the remapped one: it undoes a subscription exactly when remapping
  does not change the qualified name (`Registry.UnsubscribeUndoesIff`). The
  destructor is not affected (`Registry.TeardownLeavesNothing`).
- Unsubscribing does not reach the message the publish thread has taken: a
  callback of the target still runs if and only if it was among those left of
  that message (`PubQueue.RunsAfterRemovalIff`, with a run in
  `RemovedMayStillRun`). Messages still queued are safe
  (`PubQueue.RemovedNeverRuns`).
- Removal from the publish queue compares the argument with an absolute
  topic: it matches exactly when the argument starts with a slash and does
  not end with one (`PubQueue.ArgumentMatchesIff`), and otherwise removes
  nothing (`PubQueue.RelativeArgumentRemovesNothing`).
- `Node::TopicList` compares with the partition option as spelled: own topics
  appear exactly when it has no slash at either end
  (`RegistryService.OwnTopicShownIff`).
- Unadvertising while the reception thread still has the publisher on its
  heartbeat list leaves other processes with a publisher that is gone, and
  only then (`DiscoveryAgreement.UnadvertiseRaceIff`).
- A token round trip needs a non-empty partition and a name without "%"
  (`LivelinessTokens.MessageTokenRoundTripIff`).
- A one-way request whose message cannot be serialised is marked as
  requested but neither sent nor removed
  (`ServiceCalls.SendLeavesNothingPending`, `MarkedIsNeverSentLater`).
- `Step` promises to play the messages of an interval to a paused playback. It
  does while the thread is in no wait (`Playback.StepPublishesUpTo`). A step
  issued while the thread still waits to publish is exact only if that message
  is within the step (`StepDuringWaitIff`). One issued while it waits for an
  earlier step to end is taken over by that wait: nothing is published and the
  new boundary is dropped (`StepDuringStepIff`, with a run in
  `StepMayEndEarly`). `StepIsExactIff` covers every state.
- A pause shifts the schedule of playback only when it blocks the thread at the
  loop head; a pause and resume within one wait shift nothing
  (`Playback.PauseShiftsIff`).
- Playback keeps the log's pace (`Playback.NeverEarly`) unless a stop or a
  pause comes during a wait for a message. A stop wakes the thread; a pause
  does not, but lets the wait end when the thread next looks. The row is then
  early exactly when the thread runs before the target by more than it was
  held up since the last publication (`Playback.PauseEndsTheWait`).
- The recorder's `bufferSize` is documented as the size of the queue, but the
  writer never decrements it: it is so only until a byte was written, and
  overwriting depends on the bytes of the whole recording
  (`RecorderQueue.CounterIsQueueSizeIff`, `OverwritesIff`).
- `Statistics::max` starts at the smallest positive double, so the maximum
  is a sample only if some sample reaches it (`RunningStats.MaxIsAttainedIff`).
- Moving to the next statement of a batch does not step it
  (`MessageIterator.NoExtraVisitsIff`); every query option produces one
  statement.
- `message_types.name` is not unique in the schema, so "INSERT OR IGNORE"
  always inserts: each new topic adds a type row
  (`LogStore.TypesStayUniqueIff`). Topic ids are not affected.
- A subscription's first message is dropped when it comes less than a period
  after the steady clock's zero (`Throttle.DroppedIff`).

Where code and comments disagree the model follows the code: `AddHandler` is
commented "Add/Replace" but keeps an existing handler; discovery waits for
its third heartbeat where the comment says two cycles; the publisher's
throttle stamps the present time where the comment says one period;
`WaitUntil` of playback is commented to return false when interrupted, but
returns the value of a predicate that a pause or stop makes true.

## Model

| member | source | states |
|---|---|---|
| DiscoveryNetwork.TrafficDiesOut | src/Discovery.hh:1177-1440 | quiescence for N processes: from any sound network the number of deliveries possible without user calls or timers is bounded, for every order, loss, grouping of receivers, number of copies of a multicast per process, and relay layout |
| DiscoveryNetwork.DeliveryDecreases | src/Discovery.hh:1200-1228 | one delivery removes more weight (message type, relay flag, fan-out) from the wire than its forwards and answers add |
| DiscoveryNetwork.RunsAreShort | src/Discovery.hh:1177-1440 | the length of any run of deliveries plus the weight still in flight never exceeds the initial weight |
| DiscoveryNetwork.BoundsExist | src/Discovery.hh:1446-1504 | every sound network has the finite fan-out limits the measure needs |
| DiscoveryNetwork.StuckMeansQuiet | src/Discovery.hh:1101-1175 | a network in which no delivery is possible is exactly one with nothing in flight |
| DiscoveryNetwork.ActionsKeepSound | src/Discovery.hh:510-541 | every delivery, user call, sweep, change of subscriptions and send of any process keeps the network sound, so quiescence holds from every reachable state |
| DiscoveryAgreement.Agreement | src/Discovery.hh:988-1041 | in every guarded run, after a heartbeat that began since B joined has drained, B knows exactly A's own publishers that their scope shows to B |
| DiscoveryAgreement.KnowledgeIsFoldOfSuffix | src/Discovery.hh:1252-1280 | at every moment of every run, racing ones included, B's table for A is the fold of the suffix of A's history that B has read |
| DiscoveryAgreement.StepKeepsInv | src/Discovery.hh:658-685 | every user call of A, every send of its reception thread, and every message or local call at B keeps the link between A's table, its history and B's table |
| DiscoveryAgreement.RunProjectsToA | src/Discovery.hh:1177-1440 | seen from A alone, every run of the two processes is a run of the one-process protocol on A's own events |
| DiscoveryAgreement.RunProjectsToB | src/Discovery.hh:1177-1440 | seen from B alone, one on A's messages in their order and on what else B hears and does |
| DiscoveryAgreement.AnswerAmountsToDispatch | src/Discovery.hh:1281-1325 | answering a SUBSCRIBE one publisher at a time sends what dispatching it in one go would |
| DiscoveryAgreement.DeliverRefines | src/Discovery.hh:1403-1431 | dispatching one message of A at B changes B's nested table as the effect on a plain set of publishers says |
| DiscoveryAgreement.OthersLeaveKnown | src/Discovery.hh:1240-1248 | messages of other processes, byes included, never change what B knows of A |
| DiscoveryAgreement.UnadvertiseRaceIff | src/Discovery.hh:1002-1017 | unadvertising a shown publisher ends in agreement if and only if the reception thread does not still have it on its heartbeat list |
| DiscoveryAgreement.RaceHappens | src/Discovery.hh:1002-1017 | a concrete run for every shown publisher in which B keeps a publisher A no longer has |
| DiscoveryTiming.TimeoutBounds | src/Discovery.hh:1048-1060 | the poll timeout lies in [0, 250] ms, never passes the earlier deadline, and stops less than a millisecond short of it unless capped |
| DiscoveryTiming.SilentIsGone | src/Discovery.hh:893-935 | from a fresh start, a process silent since t is in none of the three tables once t + (silence + 1 + activity) ms + lateness + twice the work per round has passed |
| DiscoveryTiming.TrackedWasHeard | src/Discovery.hh:1062-1098 | at the end of every round of every run each tracked process was heard from less than that bound ago |
| DiscoveryTiming.RoundKeepsLoopInv | src/Discovery.hh:1062-1098 | one round of poll, dispatch, heartbeat and sweep keeps both deadlines and the freshness of all tracked processes; a heartbeat it sends comes at most heartbeatInterval + lateness + three times the work after the one before |
| DiscoveryTiming.HeartbeatsAreRegular | src/Discovery.hh:988-1041 | over every run consecutive heartbeats are at most that far apart, and the end of the run at most that far after the last |
| DiscoveryTiming.LiveIsNeverExpired | src/Discovery.hh:893-935 | a process whose messages arrive at most silenceInterval ms apart and that never says goodbye stays tracked over the whole run, and each of its publishers and remote subscriptions stays unless it withdraws it itself |
| DiscoveryTiming.OftenIsFresh | src/Discovery.hh:893-935 | message times at most silenceInterval ms apart keep the process fresh at every sweep, whenever the sweeps come |
| DiscoveryTiming.RunningPeerIsNeverExpired | src/Discovery.hh:893-1041 | two processes: while A runs its loop on time, its heartbeats arrive within a delay, and heartbeat bound and delay together are at most B's silence interval, B never expires A nor forgets what A has not withdrawn |
| DiscoveryTiming.LiveSurvivesSweep | src/Discovery.hh:893-935 | a sweep removes no publisher or remote subscriber of a live process |
| DiscoveryTiming.SweepDropsIff | src/Discovery.hh:904-917 | a due sweep drops a process if and only if silenceInterval + 1 ms or more have passed since it was last heard (the millisecond truncation) |
| DiscoveryTiming.ActivityIsOld | src/Discovery.hh:1240-1248 | over any run without a message of a process after t, the time it was last heard stays at t or before, whatever others send |
| DiscoveryProtocol.RunsKeepNoOrphans | src/Discovery.hh:1378-1401 | in every run each remote process in either table has an activity entry and the own UUID never has one |
| DiscoveryProtocol.DispatchKeepsNoOrphans | src/Discovery.hh:1177-1440 | one complete dispatch of an honest message keeps that |
| DiscoveryProtocol.ForgedAdvertiseOrphans | src/Discovery.hh:1252-1280 | a message whose header and publisher name different processes breaks it: the honesty premise is needed |
| DiscoveryProtocol.DispatchKeepsHonesty | src/Discovery.hh:1446-1504 | whatever a process sends in answer to honest messages carries one and the same process UUID in header and publisher |
| DiscoveryProtocol.SweepForgetsExpired | src/Discovery.hh:893-935 | a sweep forgets exactly the expired processes, in all three tables at once |
| DiscoveryProtocol.AdvertiseKeepsNoOrphans | src/Discovery.hh:510-541 | advertising keeps the tables free of orphans and sends only honest messages |
| DiscoveryProtocol.UnadvertiseKeepsNoOrphans | src/Discovery.hh:658-685 | unadvertising keeps the tables free of orphans and sends only honest messages |
| DiscoveryProtocol.VisibleOnlyIs | src/Discovery.hh:1281-1325 | a SUBSCRIBE is answered with exactly the own publishers whose scope reaches the sender |
| DiscoveryService.Discovery.Advertise | src/Discovery.hh:510-541 | the new tables and every message sent by Advertise, including nothing at all before Start or for a known publisher |
| DiscoveryService.Discovery.Unadvertise | src/Discovery.hh:658-685 | the new tables and the UNADVERTISE sent, silently true when the node has no such publisher |
| DiscoveryService.Discovery.UpdateActivity | src/Discovery.hh:893-935 | the sweep with its erase-while-iterating loop leaves the tables of the one-step specification, and sets the next deadline from the later clock reading |
| DiscoveryService.Discovery.EraseExpired | src/Discovery.hh:899-921 | the loop visits each expired process once and no other |
| DiscoveryService.Discovery.UpdateHeartbeat | src/Discovery.hh:988-1041 | a due heartbeat sends itself and one ADVERTISE per own publisher; discovery counts as initialised at the third |
| DiscoveryService.Discovery.NextTimeout | src/Discovery.hh:1048-1060 | the timeout is computed from the two deadlines as the bounds above need |
| DiscoveryService.Discovery.DispatchDiscoveryMsg | src/Discovery.hh:1177-1440 | relay forwarding and the switch, tied to the protocol functions used in the network, agreement and timing results |
| DiscoveryProtocol.PlainIsForwarded | src/Discovery.hh:1219-1228 | a plain message of another process goes to each stored relay exactly once, marked RELAY, and to nobody else |
| DiscoveryProtocol.RelayedIsMulticast | src/Discovery.hh:1200-1217 | a RELAY message goes to the group exactly once, marked NO_RELAY; its source is stored as a relay and nothing else changes |
| DiscoveryProtocol.FinalIsNotForwarded | src/Discovery.hh:1219-1228 | a NO_RELAY message is not passed on: only own answers are sent |
| DiscoveryProtocol.DispatchTables | src/Discovery.hh:1240-1440 | which publishers and remote subscribers are known, and the activity, after a message of each type |
| DiscoveryProtocol.AnswersAre | src/Discovery.hh:1252-1376 | exactly what is answered: registrations to a new publisher, visible own publishers to a SUBSCRIBE, all local subscriptions to a SUBSCRIBERS_REQ, nothing else |
| DiscoveryNetwork.RelaysReachOtherGroup | src/Discovery.hh:1200-1228 | a plain datagram heard by a process that knows a relay can reach every process of the other group by three deliveries, unchanged but for its flags; the relay learns the way back and the receiver tracks the sender |
| DiscoveryNetwork.AdvertisementFindsSubscriber | src/Discovery.hh:1252-1280 | after a subscription at one process and an advertisement at another, the advertisement can reach the subscriber, which then knows the publisher and sends the registration of its node |
| DiscoveryService.Discovery.RunRound | src/Discovery.hh:1062-1098 | one turn of the reception loop does to tables and deadlines what the round of the timing results says |
| DiscoveryService.Discovery.AddRelayAddress | src/Discovery.hh:953-972 | a relay address is stored once |
| DiscoveryService.Discovery.SendMsg | src/Discovery.hh:1446-1504 | one multicast and one RELAY-flagged unicast per relay, with the own UUID in the header |
| DiscoveryProtocol.SentIs | src/Discovery.hh:1446-1504 | each message sent is multicast once and unicast once to each relay with the RELAY flag, and sent to nobody else |
| DiscoveryService.Discovery.OnNewConnection | src/NodeShared.cc:1071-1136 | every interested local node is registered with the remote publisher, in handler order, and none for an own publisher |
| DiscoveryProtocol.RegistrationsAre | src/NodeShared.cc:1071-1136 | exactly the local nodes with a handler for the topic and type, or for any type, are registered with a publisher of another process |
| TopicStore.AddedHas | include/gz/transport/TopicStorage.hh:51-81 | adding stores the publisher unless its topic, process, address and node are already there, and touches no other |
| TopicStore.WithoutNodeHas | include/gz/transport/TopicStorage.hh:220-254 | deleting by node removes exactly that node's publishers of that topic and process, and leaves no empty list behind |
| TopicStore.WithoutProcHas | include/gz/transport/TopicStorage.hh:260-277 | deleting by process removes exactly that process's publishers |
| TopicStore.TopicStorage.AddPublisher | include/gz/transport/TopicStorage.hh:51-81 | the table after the call, and false exactly when the entry was there |
| TopicStore.TopicStorage.DelPublisherByNode | include/gz/transport/TopicStorage.hh:220-254 | the table after the call, and true exactly when it changed |
| TopicStore.TopicStorage.DelPublishersByProc | include/gz/transport/TopicStorage.hh:260-277 | the table after the call, and true exactly when the process was listed under some topic |
| TopicStore.TopicStorage.PublishersByProc | include/gz/transport/TopicStorage.hh:284-303 | lists each publisher of the process once, whatever the topic |
| TopicStore.TopicStorage.Publisher | include/gz/transport/TopicStorage.hh:167-197 | the first publisher of the node in that list, if any |
| TopicStore.FirstOfNodeIsFirst | include/gz/transport/TopicStorage.hh:167-197 | no publisher of the node stands before it in the list |
| TopicNames.FullyQualifiedName | src/TopicUtils.cc:91-140 | succeeds exactly when all three parts are valid and the name fits, and returns "@" partition "@" topic: a slash before the trimmed partition, a relative topic below the trimmed namespace, an absolute topic alone |
| TopicNames.QualifiedNameIs | src/TopicUtils.cc:91-140 | the edits of the three parts amount to that, for every spelling with or without slashes at the ends |
| TopicNames.NamespaceNests | src/TopicUtils.cc:113-130 | under any of the four spellings of a namespace, a relative topic decomposes to slash namespace slash topic |
| TopicNames.NamespacesAgreeIff | src/TopicUtils.cc:113-130 | two namespaces give a relative topic the same name if and only if they agree up to slashes at the ends; an absolute topic ignores them |
| TopicNames.QualifiedDecomposes | src/TopicUtils.cc:91-170 | whenever qualification succeeds, decomposition succeeds and gives the normalised partition and absolute topic, both of the documented shape |
| TopicNames.DecomposeExact | src/TopicUtils.cc:143-170 | decomposition accepts exactly the strings "@p@t" with p a valid partition and t a valid topic |
| TopicNames.RequalifyIsIdentity | src/TopicUtils.cc:91-170 | qualifying the decomposed topic again, under any spelling of the partition and any valid namespace, gives the same name |
| TopicNames.QualifiedNamesAgreeIff | src/TopicUtils.cc:91-140 | two calls give the same name if and only if they agree on normalised partition and absolute topic |
| TopicNames.NormalPartitionIdempotent | src/TopicUtils.cc:100-110 | a normalised partition is a fixed point |
| TopicNames.DecomposeAcceptsUnnormalised | src/TopicUtils.cc:143-170 | a name that decomposes need not be a normalised one |
| TopicNames.AsValidTopic | src/TopicUtils.cc:385-427 | the filter loop yields the cleaned string when that is a valid topic and "" otherwise |
| TopicNames.CleanedFixedIff | src/TopicUtils.cc:388-417 | the filter leaves a string alone if and only if it holds nothing forbidden |
| TopicNames.CleanedConcat | src/TopicUtils.cc:388-417 | the filter works piece by piece, as long as no forbidden pair is torn apart |
| TopicNames.CleanedPieces | src/TopicUtils.cc:388-417 | a space becomes an underscore, forbidden characters and pairs go, every other character stays |
| TopicNames.ValidTopicsAreFixed | src/TopicUtils.cc:385-427 | valid topics are unchanged and the result of cleaning needs no second cleaning |
| LivelinessTokens.MessageTokenRoundTripIff | src/TopicUtils.cc:288-329 | decomposing a created message token gives every field back if and only if the partition is not empty, the name has no "%", the ids are not empty and nothing has a "/" |
| LivelinessTokens.ServiceTokenRoundTripIff | src/TopicUtils.cc:332-382 | the same for service tokens, with two non-empty types free of "&" and "/" |
| LivelinessTokens.TokenRestoresName | src/Discovery.hh:319-327 | "@" partition "@" topic of a decomposed message token is the original name |
| LivelinessTokens.ServiceTokenRestoresName | src/Discovery.hh:401-412 | the same for a decomposed service token |
| LivelinessTokens.TypesRoundTrip | src/TopicUtils.cc:507-560 | packing then unpacking a type list gives it back |
| LivelinessTokens.TypesRoundTripBack | src/TopicUtils.cc:507-560 | unpacking then packing a string gives it back |
| LivelinessTokens.MessageIsNotService | src/TopicUtils.cc:332-382 | a message token whose type has no "&" is never accepted as a service token |
| LivelinessTokens.ServiceIsAlsoMessage | src/TopicUtils.cc:288-382 | every service token is accepted as a message token too: only the entity type tells them apart |
| LivelinessTokens.AcceptedIff | src/TopicUtils.cc:173-382 | of all strings, given by their fields, the decomposers accept exactly those with thirteen fields, a leading at sign, nothing empty where it matters and names valid once demangled; for a service also two packed types |
| LivelinessTokens.TokenSplits | src/TopicUtils.cc:429-489 | a created token splits into exactly its thirteen fields |
| LivelinessTokens.DecomposeTokenHelper | src/TopicUtils.cc:173-285 | the ten rounds of find-and-erase accept exactly the tokens whose fields are well formed and return those fields and the rest |
| LivelinessTokens.DecomposeMessageToken | src/TopicUtils.cc:288-329 | the message decomposer, editing its working copy, returns what the field-wise reading of the token says |
| LivelinessTokens.DecomposeServiceToken | src/TopicUtils.cc:332-382 | the same for the service decomposer |
| LivelinessTokens.MangleType | src/TopicUtils.cc:507-529 | fails exactly on an empty list, an empty type or a type with "&" |
| LivelinessTokens.DemangleType | src/TopicUtils.cc:531-560 | fails exactly when some field between separators is empty |
| Strings.ReplaceThereAndBack | src/TopicUtils.cc:491-505 | mangling and demangling a name is the identity if and only if it has no "%" |
| HandlerStore.FlatIsFaithful | include/gz/transport/HandlerStorage.hh:172-257 | without empty inner maps the three-level storage is determined by the flat (topic, node, handler) table |
| HandlerStore.QueriesRefine | include/gz/transport/HandlerStorage.hh:193-216 | a topic or node entry exists exactly when the flat table has a handler for it |
| HandlerStore.HandlerStorage.AddHandler | include/gz/transport/HandlerStorage.hh:172-187 | adds one entry to the flat table unless that handler UUID is there, which is then kept |
| HandlerStore.HandlerStorage.RemoveHandler | include/gz/transport/HandlerStorage.hh:221-239 | removes exactly that entry and keeps no empty inner map |
| HandlerStore.HandlerStorage.RemoveHandlersForNode | include/gz/transport/HandlerStorage.hh:245-256 | removes exactly the entries of that topic and node |
| HandlerStore.HandlerStorage.HasHandlersForTopic | include/gz/transport/HandlerStorage.hh:193-199 | true exactly when some node has a handler for the topic |
| HandlerStore.HandlerStorage.HasHandlersForNode | include/gz/transport/HandlerStorage.hh:205-213 | true exactly when that node has one |
| HandlerStore.HandlerStorage.FirstHandler | include/gz/transport/HandlerStorage.hh:112-136 | finds the handler of the topic for the type or the generic type with the least node and handler UUID, if and only if there is one |
| HandlerStore.HandlerStorage.Find | include/gz/transport/HandlerStorage.hh:141-157 | looks one handler up in the flat table |
| Registry.RunsAreCoherent | src/NodeShared.cc:2086-2145 | in every reachable state a node lists a topic iff it holds a normal or raw handler for it, the Zenoh table has exactly the topics with a handler, and each listed name was qualified with the node's own options |
| Registry.SamplesDispatchOnce | src/NodeShared.cc:1967-2045 | exactly one declared Zenoh subscriber dispatches a sample of a topic with handlers, none otherwise, even while retired ones are still declared |
| Registry.SubscribeKeepsCoherent | src/Node.cc:922-973 | subscribing keeps the tables coherent and gives the node its handler |
| Registry.UnsubscribeKeepsCoherent | src/NodeShared.cc:2120-2165 | unsubscribing one handler or a whole node keeps the tables coherent |
| Registry.UnsubscribeUndoesIff | src/NodeShared.cc:2086-2101 | unsubscribing by the subscribed name removes the subscription if and only if remapping does not change the qualified name |
| Registry.RemappedStaysSubscribed | src/NodeShared.cc:2091-2101 | with "a" remapped to "b", Subscribe("a") then Unsubscribe("a") on empty tables leaves the handler, the listed topic "@@/b" and its Zenoh subscriber |
| Registry.TeardownLeavesNothing | src/Node.cc:719-727 | unsubscribing from every name SubscribedTopics returns leaves the node with no subscription and no handler and every other node untouched, for every partition, namespace and remap table |
| Registry.StrippedRequalifies | src/Node.cc:774-796 | stripping the partition of a listed name and qualifying it again is the identity |
| RegistryService.NodeShared.Subscribe | include/gz/transport/detail/Node.hh:148-204 | the tables after a subscription call, and false exactly when the remapped topic does not qualify: a discovery that was not started is only reported |
| RegistryService.NodeShared.SubscribeHelper | src/NodeShared.cc:2218-2234 | the topic is listed in any case; false exactly when discovery is needed and was not started |
| RegistryService.NodeShared.Unsubscribe | src/NodeShared.cc:2086-2193 | the tables after an unsubscription call, including its early return while the node has other handlers |
| Registry.UnsubscribedOneIs | src/NodeShared.cc:2120-2165 | unsubscribing one handler takes exactly that entry, from the normal table if it is there and from the raw one otherwise; the topic stays listed if and only if the node has another handler for it |
| Registry.UnsubscribedNodeIs | src/NodeShared.cc:2120-2165 | unsubscribing a node takes exactly its handlers for the topic and the topic from its list |
| Registry.SubscribeThenUnsubscribe | src/NodeShared.cc:2120-2165 | subscribing a fresh handler and unsubscribing it gives back both handler tables, all lists and the set of Zenoh topics |
| Registry.SubscribedIs | src/Node.cc:922-973 | a subscription changes the one table alone, raw or normal, adding its handler unless that UUID is there |
| RegistryService.NodeShared.EnsureZenohSubscription | src/NodeShared.cc:1967-2014 | declares at most one subscriber per topic |
| RegistryService.NodeShared.MaybeRemoveZenohSubscription | src/NodeShared.cc:2017-2051 | retires the subscriber exactly when the topic has no handler left |
| RegistryService.NodeShared.SubscribedTopics | src/Node.cc:774-788 | returns the stripped names of the node's list, and nothing exactly when the list is empty |
| RegistryService.NodeShared.DestroyNode | src/Node.cc:719-727 | the destructor's loop, after which its assertion holds |
| RegistryService.NodeShared.AddSubscription | src/Node.cc:1374-1385 | handler, Zenoh subscription and topic list change together, whatever discovery answers |
| RegistryService.TopicList | src/Node.cc:849-893 | lists exactly the topics whose shown partition equals the option as given, in order |
| RegistryService.OwnTopicShownIff | src/Node.cc:876-892 | a node sees topics of its own partition if and only if it spelled it without a slash at either end |
| RegistryService.ShownInOrder | src/Node.cc:870-892 | each name gives its topic in its place, or nothing |
| PubQueue.RemovalFiltersRuns | src/NodeShared.cc:2237-2322 | removal deletes the target's callbacks for that topic from everything the queued messages will run, and loses, adds or reorders no other |
| PubQueue.RunsAfterRemovalIff | src/NodeShared.cc:1733-1826 | a callback of the target for a message published before the removal still runs afterwards if and only if the thread had already taken that message and not yet reached that callback, given that the thread goes on |
| PubQueue.RemovedNeverRuns | src/NodeShared.cc:2237-2322 | for a message still in the queue at the removal, no callback of the target ever runs, whatever is published, taken, run or removed later |
| PubQueue.RemovedMayStillRun | src/NodeShared.cc:1757-1826 | a run in which node "b" is removed after the thread took the message and called "a", and "b" is called nevertheless |
| PubQueue.TakenIsRunFirst | src/NodeShared.cc:1764-1826 | the callbacks of a taken message run completely and in order before any other, whatever is published or removed meanwhile |
| PubQueue.RunsInPublicationOrder | src/Node.cc:545-556 | first published, first run: with no removal, what ran and is still to run grows by exactly the callbacks of the published messages, in publication order |
| PubQueue.RemovalsKeepOrder | src/NodeShared.cc:1738-1762 | with removals, what ran and is still to run is the same sequence with some callbacks left out |
| PubQueue.OnlyRemovedDropOut | src/NodeShared.cc:2237-2322 | and nothing is left out but what some removal names |
| PubQueue.EarlierRunsFirst | src/NodeShared.cc:1738-1762 | over any run no callback of an earlier published message comes after one of a later message |
| PubQueue.LocalBeforeRaw | src/NodeShared.cc:1764-1826 | a message runs its local callbacks first and then every raw one, in the order of the entries |
| PubQueue.LocalRunsAt | src/NodeShared.cc:1764-1795 | each local entry runs once, in its place, unless it ignores local messages and belongs to the publishing node |
| PubQueue.RemovalIs | src/NodeShared.cc:2237-2322 | a removal takes exactly the entries of the node, or of the one handler, from the messages of the topic, and keeps every other as often as it was |
| PubQueue.KeptIs | src/NodeShared.cc:2252-2272 | exactly the matching entries are erased from a vector, every other one stays as often as it was |
| PubQueue.KeptInOrder | src/NodeShared.cc:2252-2272 | the kept entries keep their order |
| PubQueue.Erased | src/NodeShared.cc:2252-2272 | the erase-while-iterating loop computes that filter |
| PubQueue.Queue.RemoveHandlers | src/NodeShared.cc:2237-2322 | all queued messages of the topic are filtered, all others are untouched |
| PubQueue.Queue.TakeMessage | src/NodeShared.cc:1738-1762 | the locked part takes the oldest message out and fixes the callbacks to run |
| PubQueue.Queue.RunCallbacks | src/NodeShared.cc:1764-1826 | the two loops run exactly those callbacks in order, skipping local handlers of the publishing node that ignore local messages |
| PubQueue.ArgumentMatchesIff | src/NodeShared.cc:2103-2110 | the topic argument matches the queued messages of its own qualified name if and only if it starts with a slash and does not end with one |
| PubQueue.RelativeArgumentRemovesNothing | src/NodeShared.cc:2237-2272 | with any other argument the removal leaves every queue of qualified messages, and all callbacks to run, as they are |
| PubQueue.RelativeArgumentExample | src/NodeShared.cc:2103-2110 | unsubscribing from "t", as subscribed, leaves the callback queued under "/t" |
| ServiceCalls.RunsKeepInv | src/NodeShared.cc:818-1068 | over any interleaving: each request is transmitted at most once and only to a responder with exactly its types, each handler is notified at most once, and no one-way request is left by a successful send |
| ServiceCalls.SendLeavesNothingPending | src/NodeShared.cc:960-1066 | once a matching responder is known every request of that kind is marked; it is transmitted iff it could be serialised, and a one-way request leaves the storage iff so |
| ServiceCalls.MarkedIsNeverSentLater | src/NodeShared.cc:971-990 | a marked request is never transmitted again, even when its serialisation failed |
| ServiceCalls.NoticesAreAnswers | src/NodeShared.cc:841-893 | at every moment of every run each notification was made from a response that found its request stored, carries exactly its data, and no other response of that request ever found it stored |
| ServiceCalls.CallIsAnswered | src/NodeShared.cc:818-1068 | a stored request that is sent and answered goes out with its own data, notifies its caller with exactly what the response carried, and leaves the storage |
| ServiceCalls.CancelledIsOver | src/NodeShared.cc:870-893 | after a cancellation the request is never stored or sent again, and its caller is notified only of a response that had found it before |
| ServiceCalls.SendIsPossible | src/NodeShared.cc:960-1066 | a send pass is possible in every state, in whatever order the requests are handled |
| ServiceCalls.UnknownResponseChangesNothing | src/NodeShared.cc:885-893 | a response for an unknown, cancelled or answered request can be taken out of any run, and what is left is a run with the same end |
| ServiceCalls.FirstInOffers | src/NodeShared.cc:905-925 | the chosen responder offers exactly the two types, and none is chosen only when none does |
| ServiceCalls.FirstInIsFirst | src/NodeShared.cc:905-925 | it is the first one: none before it in its list, and none of an earlier process, offers the types |
| ServiceCalls.Requester.SendPendingRemoteReqs | src/NodeShared.cc:897-1068 | without a matching responder nothing happens; with one, exactly the unmarked requests of that topic and types are marked, sent once each, and removed if one-way |
| ServiceCalls.Requester.SendSelected | src/NodeShared.cc:960-1066 | the loop over the pending requests, in whatever order they are stored |
| ServiceCalls.Requester.FindResponder | src/NodeShared.cc:909-925 | the two nested loops with their breaks return the first match |
| ServiceCalls.Requester.RecvSrvResponse | src/NodeShared.cc:870-893 | a stored handler is notified once and removed |
| Throttle.RateBound | src/SubscriptionHandler.cc:141-160 | any window of W ns holds at most W * m / 1e9 + 1 accepted callbacks or sequential publishes |
| Throttle.AcceptedAreSpaced | src/SubscriptionHandler.cc:141-160 | accepted attempts are at least one period apart |
| Throttle.DroppedIff | src/SubscriptionHandler.cc:149-155 | an attempt is refused if and only if it comes less than a period after the last accepted one (after clock zero when none was), or the rate is 0 |
| Throttle.SubscriptionHandler.UpdateThrottling | src/SubscriptionHandler.cc:141-160 | the accepted history grows by exactly the accepted attempts |
| Throttle.Publisher.UpdateThrottling | src/Node.cc:104-135 | the same when the clock is read once to decide and again to record |
| QueryMeaning.TopicList | log/src/QueryOptions.cc:189-285 | for every set of topics and time range, the answers to the generated statement are exactly the messages of those topics in that range, ordered by time, with every placeholder bound |
| QueryMeaning.TopicPattern | log/src/QueryOptions.cc:299-390 | the same for the topics that match a pattern |
| QueryMeaning.QueriesGiveBackMessages | log/src/Log.cc:335-361 | a log recorded from empty answers a statement for topics and a time range with exactly the recorded messages of those topics in the range, each with its time, topic, type and data, ordered by time |
| QueryMeaning.ForAllAnswers | log/src/QueryOptions.cc:427-442 | AllTopics asks for every message in the range |
| QueryMeaning.ForIdsSelects | log/src/QueryOptions.cc:33-131 | parsed and evaluated with its parameters, the WHERE clause holds of a row iff its topic id is in the list and its time in the range |
| QueryMeaning.ForIdsParses | log/src/QueryOptions.cc:33-131 | the text parses to the id list and the time conditions, each reading its own consecutive placeholders |
| QueryMeaning.MarksMatchParams | log/src/MsgIter.cc:72-102 | every statement has as many placeholders as parameters |
| QueryMeaning.TimeParses | log/src/QueryOptions.cc:81-131 | the time conditions parse to one comparison per given bound, inclusive or exclusive |
| QueryMeaning.IdsMatchTopics | log/src/Descriptor.cc:26-69 | a descriptor that matches the tables turns topic names into exactly the ids of their rows |
| Queries.AppendTopicListClause | log/src/QueryOptions.cc:33-53 | the loop emits one placeholder and one parameter per id, and an empty list for none |
| Queries.GenerateTimeConditions | log/src/QueryOptions.cc:81-131 | the four combinations of given and open bounds |
| Queries.TopicListIds | log/src/QueryOptions.cc:189-206 | collects all ids of the named topics the log knows and no other |
| Queries.TopicPatternIds | log/src/QueryOptions.cc:299-319 | collects all ids of the matching topics and no other |
| QueryText.Bind | log/src/MsgIter.cc:72-102 | the i-th placeholder gets the i-th parameter |
| Descriptors.Descriptor.Reset | log/src/Descriptor.cc:26-39 | afterwards the two indexes hold exactly the given ids |
| Descriptors.Descriptor.TopicId | log/src/Descriptor.cc:54-69 | the id of the pair, or -1 when there is none |
| Descriptors.IndexesAreTransposed | log/src/Descriptor.cc:26-39 | the two indexes are transposes of each other |
| LogStore.IdsAreStable | log/src/Log.cc:229-318 | over any sequence of inserts every (name, type) pair keeps its first id and never gets a second row |
| LogStore.InsertTopicIs | log/src/Log.cc:229-318 | inserting adds exactly the new pair and keeps the tables well formed |
| LogStore.SecondAskChangesNothing | log/src/Log.cc:229-247 | asking again, after any inserts, gives the same id and stores nothing |
| LogStore.RowsHoldMessages | log/src/Log.cc:321-361 | over any sequence of inserts the added message rows are the non-empty messages, in order, each with its own time, data, topic and type |
| LogStore.MessageIdsGrow | log/src/Log.cc:321-361 | message ids grow |
| LogStore.ColumnsAreTopics | log/src/Log.cc:115-165 | the descriptor query names every topic row once, with its own id |
| LogStore.TypesStayUniqueIff | log/src/Log.cc:253-254 | a new topic keeps the type names unique if and only if no earlier topic brought its type |
| LogStore.MinTimeIs | log/src/Log.cc:573-682 | the start and end time are attained bounds of the message times |
| LogService.Log.InsertOrGetTopicId | log/src/Log.cc:229-318 | the cached descriptor answers as a fresh query would, and the caches are invalid after an insert |
| LogService.Log.InsertMessage | log/src/Log.cc:514-547 | tables and result of one insert; an empty message is refused after its topic was stored and leaves the transaction open |
| LogService.Log.UpdateDescriptor | log/src/Log.cc:108-172 | a stale descriptor is rebuilt from the tables |
| LogService.Log.StartTime | log/src/Log.cc:573-614 | the cached start time is the table's minimum, 0 when empty |
| LogService.Log.EndTime | log/src/Log.cc:617-682 | the cached end time is the table's maximum, 0 when empty |
| MessageIterator.OneStatementVisitsAll | log/src/MsgIter.cc:109-161 | a batch of one statement is visited row by row, all rows in order |
| MessageIterator.NoExtraVisitsIff | log/src/MsgIter.cc:151-160 | a loop sees as many rows as the statements return if and only if there is at most one statement |
| MessageIterator.VisitsInOrder | log/src/MsgIter.cc:109-161 | a batch is visited statement by statement, the rows of each in order; before each further statement the last row seen is shown again |
| MessageIterator.ExtraVisits | log/src/MsgIter.cc:151-160 | each further statement adds one visit that shows the previous message again |
| MessageIterator.MsgIter.StepStatement | log/src/MsgIter.cc:109-161 | one step shows the next row, or moves to the next statement without stepping it |
| MessageIterator.MsgIter.Collect | log/src/MsgIter.cc:186-236 | the loop from begin to end sees exactly that sequence |
| Playback.StepIsExactIff | log/src/Playback.cc:514-655 | Step(d) on any paused playback, wherever the thread is and stopped or not, publishes exactly the remaining rows with time at most p + d if and only if: the thread is in no wait; or it waits for a message, and that is within the step; or it waits for an earlier step or is over, and no row is within the step (after a stop: no row but the awaited one is) |
| Playback.StepPublishesUpTo | log/src/Playback.cc:514-604 | Step(d) from a pause at time p with the thread in no wait publishes exactly the remaining rows with time at most p + d, in order, and then pauses at p + d or later or ends with nothing left |
| Playback.StepEnds | log/src/Playback.cc:538-604 | from every state a step does end: at most two turns for each remaining row and two more, and from every point on the way the thread can go on to the end |
| Playback.TurnsAreFew | log/src/Playback.cc:538-604 | left alone the thread takes at most two turns per remaining row before it pauses or ends |
| Playback.StepDuringWaitIff | log/src/Playback.cc:649-655 | a step that arrives while the thread still waits to publish is exact if and only if that message is within the step |
| Playback.StepDuringStepIff | log/src/Playback.cc:584-600 | a step that arrives while the thread still waits for an earlier step to end publishes nothing: it is exact if and only if no row is within it, and the playback time gets to p + d if and only if the old wait ends no earlier than d after the pause |
| Playback.StepMayEndEarly | log/src/Playback.cc:584-600 | a run with rows at 0 and 100: Step(10), a pause at 2 in its wait, Step(200); the thread pauses itself at 10 and the row at 100 is not published |
| Playback.PublishesPrefix | log/src/Playback.cc:514-604 | with no seek the published rows are a prefix of the query result, and all of it on a finish without stop |
| Playback.PublishesConsecutiveRows | log/src/Playback.cc:514-604 | between two seeks the thread publishes consecutive rows, none twice, under any pauses, resumes, steps and stops |
| Playback.SeekRestarts | log/src/Playback.cc:657-680 | after a seek the thread goes on with the rows the new query found, from the first, whatever it was doing |
| Playback.SeekIsDueAtOnce | log/src/Playback.cc:657-680 | after a seek the first found row is due at once when the thread is at the loop head, and as soon as the pause ends when it is blocked |
| Playback.StopEnds | log/src/Playback.cc:683-701 | after a stop the thread can always go on and is over after two turns, with at most the awaited row published |
| Playback.StartIsDue | log/src/Playback.cc:514-537 | when playback begins the first row is due at its distance from the start of the log |
| Playback.PauseShiftsIff | log/src/Playback.cc:538-580 | a pause ended by a resume shifts the time of the next publication by their distance if and only if it blocks the thread, which it does at the loop head; a thread that stays in its wait keeps its target, one whose wait ends publishes at once, and of several pauses in one block only the last counts |
| Playback.PauseShiftsSchedule | log/src/Playback.cc:540-550 | a pause that the thread meets at the loop head, ended by a resume, shifts the time of the next publication by exactly its own length |
| Playback.PausedPublishesAtMostOne | log/src/Playback.cc:607-647 | while paused at most one more row is published, only if the pause found the thread waiting |
| Playback.PublicationGap | log/src/Playback.cc:538-604 | between two consecutive publications passes exactly the log time between their rows, plus the time the thread was held up by pauses, plus how late the second wait ended |
| Playback.PauseEndsTheWait | log/src/Playback.cc:607-646 | a pause or stop during a wait lets the row out, ahead of the log's pace if and only if the thread runs before the target by more than the time it was held up since the last publication |
| Playback.NeverEarly | log/src/Playback.cc:538-580 | with waiting on and no wait interrupted by a pause or stop, two consecutive publications of any run without seek are never closer in real time than their rows in the log, through all pauses, resumes and steps |
| Playback.PlaybackHandle.RunTurn | log/src/Playback.cc:514-604 | one turn of the thread between two points where it can be interleaved |
| Playback.PlaybackHandle.PublishMessage | log/src/Playback.cc:565-580 | publishing advances iterator, playback time and next time; past the last row the next time stays |
| Playback.PlaybackHandle.Pause | log/src/Playback.cc:704-719 | pausing advances the playback time by the real time since the last event and drops the boundary |
| Playback.PlaybackHandle.Step | log/src/Playback.cc:649-655 | a zero step does nothing; any other sets the boundary and resumes |
| Playback.PlaybackHandle.Seek | log/src/Playback.cc:657-680 | seeking replaces the batch, unless stopped |
| RecorderQueue.QueueKeepsOrder | log/src/Recorder.cc:224-261 | in every run, handed to the writer followed by queued is an in-order part of what was received, the queue is its newest end, only overwritten items are lost, and bufferSize counts queued plus handed bytes |
| RecorderQueue.ReceivedAreEvents | log/src/Recorder.cc:224-261 | what was received is the items of the callbacks, in order, under the limit set last |
| RecorderQueue.UnderflowIsUnreachable | log/src/Recorder.cc:395-408 | the "less than zero" branch is never taken |
| RecorderQueue.CounterIsQueueSizeIff | log/src/Recorder.cc:150-156 | bufferSize is the size of the queue, as documented, if and only if no byte was ever handed to the writer |
| RecorderQueue.OverwritesIff | log/src/Recorder.cc:242-252 | the oldest item is overwritten if and only if there is one and the bytes of the whole recording exceed the limit |
| RecorderQueue.Recorder.OnMessageReceived | log/src/Recorder.cc:224-261 | nothing is queued before the writer starts; afterwards at most one item is overwritten per message |
| RecorderQueue.Recorder.WriteNext | log/src/Recorder.cc:346-372 | the writer takes the oldest item and leaves the counter alone |
| RecorderQueue.Recorder.FlushDataQueue | log/src/Recorder.cc:411-426 | flushing ends with an empty queue and hands everything over in order |
| RunningStats.RunningRefinesDefinition | src/TopicStatistics.cc:71-90 | after any samples, average times count is their sum and sumSquareMeanDist is the sum of squared distances from the final mean, never negative |
| RunningStats.OneMoreSample | src/TopicStatistics.cc:71-90 | one step of Welford's algorithm on the samples' own sums |
| RunningStats.BoundsHold | src/TopicStatistics.cc:82-83 | min and max bound all samples and are samples or the initial values |
| RunningStats.MinIsAttained | src/TopicStatistics.cc:82-83 | the minimum of finite samples is one of them |
| RunningStats.MaxIsAttainedIff | include/gz/transport/TopicStatistics.hh:83-84 | the maximum is a sample if and only if some sample reaches the smallest positive double, where it starts |
| RunningStats.MaxOfZero | include/gz/transport/TopicStatistics.hh:83-84 | a single sample of zero is not its own maximum |
| RunningStats.DroppedCountsGaps | src/TopicStatistics.cc:140-166 | the drop counter is the number of breaks in the senders' numberings, one per break however long, and the map holds each sender's latest number |
| RunningStats.PublicationIsOfPeriods | src/TopicStatistics.cc:148-151 | the publication statistics are those of the wrapped differences of consecutive stamps, except after a zero stamp |
| RunningStats.PublicationRefinesPeriods | src/TopicStatistics.cc:148-151 | so their mean and squared distances are those of the periods by definition |
| RunningStats.ReceptionRefinesPeriods | src/TopicStatistics.cc:148-156 | the reception and age statistics are, by definition, those of the wrapped clock differences and of the wrapped ages |
| RunningStats.TopicStatistics.Update | src/TopicStatistics.cc:140-166 | one arrival updates the three statistics, the drop counter and the sender map as specified |
| RunningStats.Statistics.Update | src/TopicStatistics.cc:71-90 | the fields after one sample |

## Left out

- Sockets, ZeroMQ, Zenoh, shared memory, protobuf and SQLite: messages are datatypes, tables sequences or maps, and sending, delivery and SQL evaluation are steps of the model. Failing system calls are not modelled, except that serialising a request may fail.
- Access control, environment variables, network interfaces, UUID generation (UUIDs are unique), printing, the C interface, the command line, Python, `parameters/` and the option classes: thin or easy.
- Thread primitives: each section under a mutex is one step, and so is each callback the publish thread runs without it. The discovery reception thread is sequential.
- Floating-point rounding, square roots and the overflow of 64-bit counters: reals and unbounded integers. Subtraction and the sequence number of topic statistics do wrap at 64 bits.
- The order in which `std::unordered_set` lists its elements, and that of `std::map` where only the set of results matters.
- The effects of the discovery callbacks on the tables `remoteSubscribers` and `connections` of the shared object, `OnNewDisconnection` and access to publishers through them: plain additions and deletions by key. The messages the callbacks send are modelled.
- The liveliness handlers of the Zenoh backend: they pass decomposed tokens on; the tokens themselves are modelled.
- DiscoveryNetwork.TrafficDiesOut: user calls and timers are quiet during the burst, since each of them starts a new burst; that every such action keeps the network sound is `ActionsKeepSound`.
- DiscoveryAgreement.StepKeepsInv: a whole `Advertise` or `Unadvertise` of A, table change and later send, is one step although the send is outside the mutex of the discovery object: every caller (src/Node.cc:145-155 and 1307-1342) holds the shared mutex over the whole call.
- DiscoveryAgreement.Agreement: no relays between the two processes, lossless in-order delivery, and no expiry of A at B; without these, knowledge may lag or be dropped.
- DiscoveryTiming.RunningPeerIsNeverExpired: both processes are on one time scale, and that heartbeats are received within the delay is a premise.
- DiscoveryTiming.SilentIsGone: user calls between rounds are not steps, because they touch no activity entry.
- PubQueue.Queue.RemoveHandlers: erasing through a vector iterator is modelled as leaving the position in place, which is what the loop relies on.
- ServiceCalls.RunsKeepInv: ZeroMQ only. The Zenoh path, which leaves a failed query pending, and replies on the responder's side are not modelled; neither is `srvQueue`, which only decides when a send pass runs.
- QueryMeaning.TopicList: statement text is a sequence of tokens (spacing is not modelled), regular expressions are predicates on names, and parameters are integers, the only kind the generators use.
- LogStore.IdsAreStable: rows are never deleted, as in the library, and SQLite statements succeed; a corrupt database (the fallback of `EndTime`) is not modelled.
- Playback.NeverEarly: between two seeks only; a seek starts a new sequence of rows.
- Playback.PublishesPrefix: `Seek` past the last message reads through an empty iterator in the source and is excluded; waiting for advertisements and the choice of topics before the start are not modelled.
- RecorderQueue.QueueKeepsOrder: a message may be queued at any time, which covers a callback that read the writer state just before it changed.
- Statistics::StdDev, FillMessage and the other accessors, `ServiceList`, `AdvertisedTopics`, publisher and service option classes: easy members.
