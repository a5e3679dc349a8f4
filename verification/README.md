# Verification of the embedded MQTT 3.1.1 client

This project models the client's delivery state machines, the byte pipeline
beneath them and the loop that drives both, and proves what they promise.

## How the model is built

**Queues.** The sender (`PublishModel`), the receiver (`ReceiveModel`) and the
subscribe requests (`SubscribeModel`) are state machines over values: small
steps, and the send passes as functions of an arbitrary connection. A
connection answers every attempt to write with acceptance, refusal or failure;
answers and clock are arbitrary functions (`PacketLink`); an answer may depend on
the packet and on what was taken before. Every state carries a
history that no step reads. `Publishes`, `Receives` and `Subscribes` hold the
mutable objects; each method is proved equal to the value function and keeps
the object in a reachable state, so theorems about runs hold of the objects.

**Identifiers.** `PidOwnership` puts the pool, waiting callers, publish queues
and subscribe queues into one system whose broker may acknowledge anything at any
time. `States.State` is the client's state as objects that share one pool; its
methods are proved to be steps of that system. `Exclusive` shows that an
identifier serves one component at a time, and `Requested` that no argument of a call
is changed or forgotten. `Handshakes` shows for every run
of it that a completion belongs to its own request: labels and identifiers are
used again and again, but no identifier for two requests at a time.

**End to end.** `EndToEnd` joins a client and a receiver by two lossless
channels, without retransmission. Its invariant gives every identifier in flight
exactly one token: on its way out, queued at the other side, or on its way back.
`Delivery` derives exactly-once delivery; `Capacities` shows for which queue
capacities the back-pressure is enough, and `Progress` that it never deadlocks:
every run that cannot go on has delivered and completed every request. The client's
sending steps are exactly what its passes can make
(`PublishRuns.SendPacketsLeads`, `PublishPasses.TransmissionIsPass`).
`Codecs.PacketsCross` shows that the byte pipeline is such a lossless channel.

**Passes and times.** `PublishPasses`, `ReceivePasses` and `SubscribePasses` say for any
connection which packets a pass writes and how it ends; `Chains` says the same of the
chain of all four components. The histories record the clock of every transmission:
`PublishTimes`, `RepetitionTimes` and `SubscribeTimes` show that nothing is repeated
within five seconds of the transmission before.

**Bytes.** `StackBuffers` is the array with its two positions and its borrow
counter. The codec is an encoding function and a decoder about which only one thing is assumed:
later bytes do not change a packet that is already complete (`PrefixCode`).
The network (`Networks`) follows a script of replies: fail, stay pending, or
move up to so many bytes. `Pending` is the result of a future that was dropped while it waited,
which also covers cancellation by `select3`. `TcpConnections.TcpConnection` keeps two invariants in every
method: bytes sent plus bytes waiting are the encodings of the accepted packets
(`Framed`), and whatever follows on the stream, packets returned so far plus
the buffer decode to what the whole stream decodes to (`Chunked`). Borrowing a
buffer cell twice panics; every caller proves that it does not.

**Loop, keep-alive, mutex.** `Clients.Client.Run` is the driving loop: the
components of `States.State` over a `TcpConnection`, whose send buffer gives the
answers of their passes (`BufferAnswers`). Clocks, network, and the requests and
events of the application are arbitrary. The assertions of the source are preconditions of the methods
it calls. `Pings` holds the keep-alive timing; a `PingState` is valid if its packets
are a run by a clock that does not run backwards. `MutexModel` is the lock with its
wakers as a state machine, `AsyncMutex.Mutex` the object.

## What the code does that its documentation does not say

- A QoS 2 publish that is repeated once, and answered twice by the broker, makes
  the client panic when it sends the second pubrel (src/state/publish2.rs:95-104).
  `PublishPasses.PanicExactly` gives the exact condition and
  `PublishPasses.RepetitionCanPanic` a run.
- A PUBREC that finds `send_pubrel` full loses the publish: it is already removed
  from `await_pubrec` (src/state/publish2.rs:190-203). `Lost` records this in the
  history, and `PublishTheorems.Conservation` accounts for it.
- Each pass over `send_puback` and `send_pubcomp` skips every second entry, because the
  index advances after a removal (src/state/receives2.rs:95-137). SentAll is
  reported nevertheless (`ReceiveTheorems.OnePass`, `PassesDrain`).
- The receiver treats a new publish with an identifier as a duplicate as long as
  its history owes that identifier anything (`ReceiveTheorems.DuplicateExactly`).
  A pubcomp that was skipped as above is such a debt
  (`ReceiveTheorems.RepeatedPubrelHidesPublish`). A repeated PUBLISH, which this
  client itself sends after five seconds, leaves one that the one PUBREL does not pay
  (`ReceiveTheorems.RepeatedPublishHidesPublish`).
- The receiver overflows in some run if its queues are smaller than the client's. The
  client loses a publish in some run if the receiver's queues are larger, unless the
  identifiers run out before: that takes `2 * capacity + 1` of them, for a full
  `await_pubcomp`, a full `send_pubrel` and one more PUBREC
  (`Capacities.CapacitiesMustMatch`).
- A full `await_ack` with one more subscribe request queued stops every pass before
  any resend of a request and before the ping, until an acknowledgement arrives
  (`Starvation.BlockedUntilAnswered`, `Starvation.PingGetsItsTurn`).
- `connect` writes the CONNECT packet once and then waits for the CONNACK. What
  the network did not take in that write stays in the buffer
  (src/state/connection/mod.rs:465-470, `TcpConnections.TcpConnection.SendConnect`).
- Automatic subscriptions take a SUBACK with any identifier, and the identifier of
  the SUBSCRIBE is never freed (src/state/connection/mod.rs:260-304,
  `TcpConnections.TcpConnection.SubscribeChunk`, `TcpConnections.ForeignSubackIsTaken`).

## Model

| member | source | states |
|---|---|---|
| Publishes.PublishesInner.Publish | src/state/publish2.rs:388-400 | one poll of publish: pending exactly while the queue is full, a panic exactly when topic or payload does not fit, otherwise appended at the end; nothing changes unless it is accepted |
| Publishes.PublishesInner.ProcessPuback | src/state/publish2.rs:177-188 | the first entry with the identifier leaves, its identifier goes back to the pool and it is reported done; without one UnexpectedAck and nothing changes |
| Publishes.PublishesInner.ProcessPubrec | src/state/publish2.rs:190-203 | the waiting entry becomes a pubrel, an unknown one an anonymous pubrel; QueueFull exactly when the pubrel queue is full, and then the entry is lost |
| Publishes.PublishesInner.ProcessPubcomp | src/state/publish2.rs:205-216 | the first entry with the identifier leaves, is freed and reported done; without one UnexpectedAck |
| Publishes.PublishesInner.SendPendingPublishes | src/state/publish2.rs:218-261 | the loop is the pass of the model: new queues, packets written and result, for every behaviour of the connection |
| Publishes.PublishesInner.SendPendingPubrel | src/state/publish2.rs:263-290 | the same for the pubrels, including the panic on an anonymous one |
| Publishes.PublishesInner.ResendPublishes | src/state/publish2.rs:292-323 | the two resend loops with a clock read for each |
| Publishes.PublishesInner.ResendPubrel | src/state/publish2.rs:325-341 | the resend loop of the pubrels |
| Publishes.PublishesInner.SendPackets | src/state/publish2.rs:345-351 | the four passes in their order, each only after SentAll; unless it panics the object stays in a reachable state |
| PublishRuns.SendPacketsLeads | src/state/publish2.rs:345-351 | a whole pass is a run of the smallest sending steps, whatever the connection answers; no publish goes out in it before the pubrels are blocked |
| PublishPasses.TransmissionIsPass | src/state/publish2.rs:345-351 | the converse: every enabled first transmission, of a publish or a pubrel, is what the pass makes on a connection that takes one packet |
| PublishRuns.ReachableInv | src/state/publish2.rs:218-290 | in every reachable state no queue exceeds its capacity, so the unchecked pushes are safe; histories are conserved and ordered, and a completion comes after a handshake with its label and identifier |
| PublishTheorems.Conservation | src/state/publish2.rs:177-290 | every accepted request is queued, completed or lost, exactly as often as it was accepted; at most one completion each |
| PublishTheorems.LossNeedsFullPubrelQueue | src/state/publish2.rs:190-203 | a publish is lost in exactly one step: a PUBREC for it that meets a full pubrel queue |
| PublishTheorems.FirstInFirstOut | src/state/publish2.rs:218-261 | per QoS class the first transmissions are a prefix of the acceptance order and the queue holds the rest in order |
| Handshakes.Qos2Handshake | src/state/publish2.rs:190-290 | a QoS 2 completion comes after PUBLISH out, PUBREC in, PUBREL out, PUBCOMP in, in this order, and from that PUBLISH to the completion no other publish is accepted, transmitted, completed or lost with the identifier |
| Handshakes.Qos1Handshake | src/state/publish2.rs:177-261 | the same for QoS 1: PUBLISH out, then PUBACK in, of its own request |
| PublishTheorems.OwnedPidsStep | src/state/publish2.rs:177-290 | the identifiers held by the queues change only by what a step acquires and releases |
| PublishTheorems.RetransmissionFidelity | src/state/publish2.rs:243-323 | every repetition is the DUP copy of one earlier first transmission of QoS 1 or 2, with no acknowledgement between them |
| PublishPasses.SendPacketsExact | src/state/publish2.rs:345-351 | the packets taken by the connection are the transmissions of the history, in order; PartiallySent exactly when the last attempt was refused, an error exactly when that was its answer |
| RepetitionTimes.PublishRepeatedLate | src/state/publish2.rs:292-323 | in every run a publish is repeated more than 5000 ms after the latest earlier transmission with its identifier |
| RepetitionTimes.PubrelRepeatedLate | src/state/publish2.rs:325-341 | the same for pubrels |
| RepetitionTimes.StampIsLastTransmission | src/state/publish2.rs:37-82 | in every run the time stamp of an entry that waits for PUBACK or PUBREC is the time of its latest transmission |
| RepetitionTimes.PubrelStampIsLastTransmission | src/state/publish2.rs:84-105 | the same for the entries that wait for PUBCOMP |
| RepetitionTimes.OncePerPass | src/state/publish2.rs:345-351 | while the clock stands still a pass writes no publish and no pubrel twice |
| PublishPasses.SentAllMeaning | src/state/publish2.rs:218-351 | after SentAll every queue is blocked only by the next one and no waiting entry is older than the resend time |
| PublishPasses.PanicExactly | src/state/publish2.rs:95-104 | sending panics if and only if an anonymous pubrel is within the free room of the next queue and the connection accepts every pubrel up to it |
| PublishPasses.RepetitionCanPanic | src/state/publish2.rs:190-203 | one repetition that is also answered reaches the panic |
| Receives.ReceivesInner.OnPublish | src/state/receives2.rs:164-184 | queues, deliveries and result for every class and every error, as in the model |
| Receives.ReceivesInner.OnQos2Publish | src/state/receives2.rs:64-81 | PUBREC queued first, delivery only if it is no duplicate, errors in the order of the source |
| Receives.ReceivesInner.OnPubrel | src/state/receives2.rs:83-93 | PUBCOMP queued, one matching entry removed, QueueFull changes nothing |
| Receives.ReceivesInner.SendPackets | src/state/receives2.rs:95-140 | the three index loops equal the model pass, with its skipped entries; the object stays reachable |
| ReceivePasses.SendPacketsExact | src/state/receives2.rs:95-140 | on any connection the packets written are the acknowledgements that the history records, in order; SentAll exactly if every attempt was accepted, PartiallySent exactly if the last one was refused, an error exactly if it failed |
| ReceiveRuns.SendPacketsLeads | src/state/receives2.rs:95-140 | a pass is a run of the smallest sending steps |
| ReceiveRuns.AtMostOnce | src/state/receives2.rs:58-137 | between two deliveries of one QoS 2 identifier lies PUBREC out, PUBREL in, PUBCOMP out, for any peer and any refusing connection |
| ReceiveTheorems.OnePass | src/state/receives2.rs:95-140 | an accepted pass writes exactly the even-positioned pubacks, the even-positioned pubrecs as far as there is room to await their pubrels, and the even-positioned pubcomps, keeps the others, and reports SentAll |
| ReceiveTheorems.PublishArrives | src/state/receives2.rs:64-184 | for every class: exactly when the application gets a publish, unchanged, which acknowledgement it queues, and with which result |
| ReceiveTheorems.PubrelArrives | src/state/receives2.rs:83-93 | a pubrel queues its PUBCOMP and releases its identifier once, or finds no room and changes nothing |
| ReceiveTheorems.EvensAndOdds | src/state/receives2.rs:95-107 | which entries the two halves of a queue hold, and how many |
| ReceiveTheorems.HalvesBag | src/state/receives2.rs:95-107 | the two halves lose and duplicate nothing |
| ReceiveTheorems.PassesDrain | src/state/receives2.rs:95-140 | without arrivals the queue is empty after k passes if and only if it had fewer than 2^k entries |
| ReceiveTheorems.DeliveredExactly | src/state/receives2.rs:64-81 | a fitting QoS 2 publish is delivered if and only if its identifier is in none of the queues and there is room for its PUBREC |
| ReceiveTheorems.DuplicateExactly | src/state/receives2.rs:58-62 | in every reachable state an identifier counts as a duplicate if and only if its history owes it a PUBREC, a PUBREL or a PUBCOMP |
| ReceiveTheorems.FreshExactly | src/state/receives2.rs:58-93 | with a peer that releases only what was acknowledged, an identifier is free if and only if publishes taken, PUBRECs out, PUBRELs in and PUBCOMPs out balance |
| ReceiveTheorems.RepeatedPubrelHidesPublish | src/state/receives2.rs:127-137 | after a repeated PUBREL, a reachable state in which a new publish is answered but not delivered |
| ReceiveTheorems.RepeatedPublishHidesPublish | src/state/receives2.rs:64-93 | after a repeated PUBLISH and a complete handshake, a reachable state in which a new publish is answered but not delivered |
| PidPools.PidPool.NextPid | src/state/pid.rs:71-78 | the oldest pooled identifier, else a new one, else a panic |
| PidPools.PidPool.Take | src/state/pid.rs:80-89 | the counter, with the panic at 65535 |
| PidPools.PidPool.FreePid | src/state/pid.rs:91-99 | appended, or forgotten when 16 are pooled |
| PidOwnership.EveryPidInOnePlace | src/state/pid.rs:62-100 | every identifier below the counter is pooled, owned once, leaked or dropped, and exactly one of these, for any acknowledgements |
| PidOwnership.IssuedIsUnused | src/state/pid.rs:71-89 | the next identifier lies in 1..65534 and nobody holds it |
| PidOwnership.HeldAtMost | src/state/pid.rs:62-100 | the queues never hold more than 65534 identifiers |
| PidOwnership.FreedAtMostOnce | src/state/pid.rs:91-99 | every issue is freed at most once |
| PidOwnership.FirstTransmissionsAreClear | src/state/mod.rs:135-141 | in every run the first transmission of every publish has the DUP flag clear |
| PidOwnership.RetransmissionsAreFaithful | src/state/publish2.rs:243-323 | retransmission fidelity for identifiers that come from the pool, in every run |
| Subscribes.SubsInner.AddRequest | src/state/sub2.rs:209-251 | pending while full, a panic for topics that cannot be copied, otherwise appended with the next identifier |
| Subscribes.SubsInner.SendRequests | src/state/sub2.rs:93-112 | the loop equals the model pass |
| Subscribes.SubsInner.ResendRequests | src/state/sub2.rs:114-133 | the loop equals the model pass |
| Subscribes.SubsInner.Send | src/state/sub2.rs:187-191 | both passes; the object stays reachable |
| Subscribes.SubsInner.OnSuback | src/state/sub2.rs:135-152 | only a subscribe request with this identifier is completed and freed |
| Subscribes.SubsInner.CheckSuback | src/state/sub2.rs:154-173 | an error if and only if a return code paired with a topic is a failure |
| Subscribes.SubsInner.OnUnsuback | src/state/sub2.rs:175-185 | only an unsubscribe request with this identifier is completed and freed |
| SubscribePasses.SendExact | src/state/sub2.rs:36-133 | on any connection a pass writes the requests that the history records as sent and resent, in order, each as a packet with its identifier and all its topics, with the class of the request; how each outcome comes about |
| SubscribePasses.SentAllIsYoung | src/state/sub2.rs:114-133 | after SentAll no waiting entry is older than 5000 ms, if the clock does not run backwards |
| SubscribeTimes.RepeatedLate | src/state/sub2.rs:114-133 | in every run a request is found overdue more than 5000 ms after its latest earlier transmission |
| SubscribeTimes.StampIsLastTransmission | src/state/sub2.rs:63-76 | in every run the time stamp of a waiting request is the time of its latest transmission |
| SubscribeTimes.OncePerPass | src/state/sub2.rs:187-191 | while the clock stands still a pass repeats no request it transmitted |
| SubscribeRuns.SubackCompletes | src/state/sub2.rs:135-173 | a SUBACK completes a subscribe request exactly if one with its identifier waits, with the result of its codes; otherwise it changes nothing |
| SubscribeRuns.UnsubackCompletes | src/state/sub2.rs:175-185 | the same for UNSUBACK |
| SubscribeRuns.RequestsInOrder | src/state/sub2.rs:93-112 | requests are first written in the order of acceptance and never lost; one completion each |
| Handshakes.SubscribeCompletion | src/state/sub2.rs:135-173 | a completion follows a SUBACK for the request that was transmitted with its identifier, which had no other purpose among the requests since; its error means exactly that a topic of this request is refused |
| Handshakes.UnsubscribeCompletion | src/state/sub2.rs:175-185 | the same for UNSUBACK |
| Exclusive.OneComponent | src/state/pid.rs:62-100 | in every run, while a subscribe or unsubscribe request holds an identifier no publish is accepted, transmitted, completed or lost with it, and the other way round |
| EndToEnd.PublishIsNew | src/state/receives2.rs:58-81 | a QoS 2 publish that arrives is never taken for a duplicate and finds room |
| EndToEnd.AckIsExpected | src/state/publish2.rs:177-216 | an arriving acknowledgement is always awaited, and a PUBREC finds room for its pubrel |
| EndToEnd.InvStep | src/state/publish2.rs:177-290 | every step of client, channels and receiver keeps one token per identifier in flight |
| Delivery.DeliveredInOrder | src/state/receives2.rs:64-81 | per class, what was delivered is a prefix of what was accepted |
| Delivery.CompletedWasDelivered | src/state/publish2.rs:177-216 | a request completes no more often than it was delivered |
| Delivery.OneInFlight | src/state/publish2.rs:388-400 | of all requests with one label and identifier at most one is not completed |
| Delivery.ExactlyOnceDelivery | src/state/publish2.rs:177-216 | for every label and identifier, however often they are used: completed <= delivered <= accepted <= completed + 1, so that without a request in flight each was delivered exactly once |
| Delivery.ReceiverAlwaysAccepts | src/state/receives2.rs:64-93 | with suitable capacities nothing that arrives is rejected, and every publish that arrives is delivered |
| Delivery.ClientAlwaysExpects | src/state/publish2.rs:190-203 | no unexpected acknowledgement, no full pubrel queue, no anonymous pubrel and no lost publish in any reachable world |
| Progress.MoveCostsOne | src/state/publish2.rs:177-290 | every packet that is written or taken lowers the work that is left by exactly one |
| Progress.NeverStuck | src/state/publish2.rs:218-290 | with room on both sides, in every reachable world some packet can be written or taken if and only if something is left to do |
| Progress.EveryRunCompletes | src/state/publish2.rs:177-290 | a run of such moves that cannot go on has exactly as many steps as work was left, and then every accepted request is delivered and every acknowledged one completed, exactly as often as accepted |
| Capacities.CapacitiesMustMatch | src/state/publish2.rs:225-281 | for all capacities: no run overflows a queue if and only if the client has no room at all, or both capacities are equal up to the 65534 identifiers there are, or the receiver has more room and 2 * capacity + 1 identifiers do not exist |
| Capacities.SmallerReceiverOverflows | src/state/receives2.rs:171-176 | for any smaller receiver some run overflows its PUBACK queue |
| Capacities.LargerReceiverOverflows | src/state/publish2.rs:190-203 | for any larger receiver, if there are 2 * capacity + 1 identifiers, a run in which every publish waits for the pubrels makes the client lose a publish |
| ReceiveTheorems.PubrecIsPass | src/state/receives2.rs:109-125 | the PUBRECs of that run are what the receiver's pass writes first |
| StackBuffers.RotateLeft | src/buffer.rs:210-216 | rotation in place |
| StackBuffers.StackBuffer.WriteableData | src/buffer.rs:184-190 | the unread bytes stay, compacted only when the write position is at the end |
| StackBuffers.StackBuffer.AddBytesRead | src/buffer.rs:192-199 | consumes from the front, refuses more than there is |
| StackBuffers.StackBuffer.CommitBytesWritten | src/buffer.rs:201-208 | appends what was filled in, refuses more than there is room |
| StackBuffers.StackBuffer.Flip | src/buffer.rs:210-216 | the unread bytes are unchanged and start at the front |
| StackBuffers.StackBuffer.Push | src/buffer.rs:219-228 | succeeds exactly when unread and new bytes fit together, and appends |
| StackBuffers.StackBuffer.IsMaxLen | src/buffer.rs:241-243 | exactly when the unread bytes fill the array |
| StackBuffers.StackBufferCell.Borrow | src/buffer.rs:17-28 | one borrower at a time; a second one panics and changes nothing |
| StackBuffers.StackBufferCell.DropMapped | src/buffer.rs:134-145 | dropping a parsed value consumes exactly its bytes and ends the borrow |
| Codecs.ReturnedInOrder | src/state/connection/mod.rs:127-157 | the packets returned are a prefix of those of the whole stream, and all of them once the buffer holds no complete packet, however the bytes were portioned |
| Codecs.ExplainedPacket | src/state/connection/mod.rs:143-157 | consuming a decoded packet keeps the stream explained |
| Codecs.DecodeFrames | src/state/connection/mod.rs:237-258 | decoding at once undoes encoding, for any list of packets |
| Codecs.PacketsCross | src/state/connection/mod.rs:352-380 | two ends of a connection form a lossless channel: returned packets are a prefix of the accepted ones, and equal once all arrived |
| Networks.Network.TryRead | src/state/connection/mod.rs:34-50 | a read that is not ready moves nothing and is no error |
| TcpConnections.TcpConnection.TryWriteCompacting | src/state/connection/mod.rs:237-258 | accepted exactly when waiting and new bytes fit, BufferTooSmall exactly when not even the empty buffer is enough; framing kept whatever a failed encoding scribbles |
| TcpConnections.TcpConnection.TryWritePacket | src/state/connection/mod.rs:496-507 | the trait version: accepted exactly when it fits behind the write position, never too small |
| TcpConnections.TcpConnection.Send | src/state/connection/mod.rs:204-222 | one write of any size and a flush; nothing to do without waiting bytes |
| TcpConnections.TcpConnection.SendAll | src/state/connection/mod.rs:172-190 | on success nothing waits and everything is flushed; succeeds on a cooperative network |
| TcpConnections.TcpConnection.WritePacketAsync | src/state/connection/mod.rs:225-233 | on a network that moves at least one byte per write it ends, with success exactly for packets that fit the buffer and BufferTooSmall exactly for larger ones |
| TcpConnections.TcpConnection.TryReadPacket | src/state/connection/mod.rs:143-157 | the decoder's answer, BufferTooSmall exactly for an incomplete packet in a full buffer, the borrow kept exactly with a packet |
| TcpConnections.TcpConnection.DropPacket | src/buffer.rs:134-145 | consumes the packet and adds it to the returned ones |
| TcpConnections.TcpConnection.ReadPacket | src/state/connection/mod.rs:127-141 | never reads into an empty slice; the exact reasons of every error; pending only if the network waits, and on a cooperative network only once everything the broker sent was read |
| TcpConnections.TcpConnection.SendReceive | src/state/connection/mod.rs:352-380 | framing and chunking kept; ends with input or with everything written; every read gets the compacted room; succeeds on a cooperative network within a bound on replies |
| TcpConnections.TcpConnection.RunIo | src/state/connection/mod.rs:513-523 | the next packet of the stream; an empty read only if the buffer was full on entry; pending only if the network waits, and on a cooperative one only once everything the broker sent was read |
| TcpConnections.TcpConnection.RunIoNonblocking | src/state/connection/mod.rs:525-540 | exactly one write if something waits, its taken bytes flushed, exactly one read, then the decoder's answer |
| TcpConnections.TcpConnection.Disconnect | src/state/connection/mod.rs:395-416 | the panic is unreachable; on success all frames with a final DISCONNECT are flushed and the connection is gone; succeeds on a cooperative network within a bound on replies, if the packet can be written at all |
| TcpConnections.TcpConnection.SubscribeAutoSubscribes | src/state/connection/mod.rs:260-304 | one SUBSCRIBE and one accepting SUBACK per chunk of five; on every outcome the identifiers taken are counted, and all chunks but the last tried are confirmed |
| TcpConnections.ChunksCover | src/state/connection/mod.rs:261 | the groups joined are the configured topics in order, each has one to five, and all but the last have five |
| TcpConnections.ChunkPacketAsks | src/state/connection/mod.rs:262-280 | the SUBSCRIBE of a group asks for each of its topics with its own class |
| TcpConnections.TcpConnection.SubscribeChunk | src/state/connection/mod.rs:262-299 | a panic exactly when no identifier is left, otherwise the next one is taken on every outcome; once a packet was returned, success if and only if it is a SUBACK that refuses no topic of the chunk |
| TcpConnections.TcpConnection.ProcessSuback | src/state/connection/mod.rs:306-324 | an error if and only if a return code paired with a topic is a failure |
| TcpConnections.ForeignSubackIsTaken | src/state/connection/mod.rs:289-298 | a SUBACK with a foreign identifier has the same result |
| TcpConnections.TcpConnection.ProcessConnack | src/state/connection/mod.rs:326-350 | Connected exactly on success, Error and the right error on refusal |
| TcpConnections.TcpConnection.SendConnect | src/state/connection/mod.rs:455-468 | CONNECT is accepted and written once; the rest stays in the buffer |
| TcpConnections.TcpConnection.Connect | src/state/connection/mod.rs:418-486 | success exactly in the state Connected, with CONNECT first out and an accepting CONNACK first in; what any other first packet leads to; the pool after every outcome; pending or failed only if the network's last reply says so |
| Networks.ServedExplains | src/state/connection/mod.rs:34-50 | an operation on a network that answers all its calls is neither pending nor failed |
| Clients.Client.Forward | src/state/connection/mod.rs:496-507 | the answers the components got are those of the send buffer: what was accepted fits, packet by packet, and is framed |
| Clients.Client.TurnDown | src/state/connection/mod.rs:496-507 | the packet that was turned down in a pass is turned down by the send buffer, with the same answer |
| Clients.Client.SendPackets | src/state/mod.rs:172-177 | the chain of the components over what the send buffer answers: their new states and its result, and the buffer accepts exactly the packets the chain wrote |
| Clients.Client.Handle | src/state/mod.rs:200-204 | the exact result of the component that handles the packet, as a step of the identifier system; its bytes are consumed in every case |
| Clients.Client.Blocking | src/state/mod.rs:185-211 | an event that is ready decides before the connection is looked at, one that arrives decides exactly if the network waits; a disconnect request ends the loop, every other event does not |
| Clients.Client.Iterate | src/state/mod.rs:170-211 | one iteration while connected: the chain, then at most one received packet for its component, with its exact result; identifiers, both byte streams and the keep-alive trace stay reachable together |
| Clients.Client.RunOnce | src/state/mod.rs:164-211 | connects if needed, and ends the loop exactly if everything there was to send was accepted and a disconnect request is ready, or arrives while the network waits |
| Clients.PacketReaches | src/state/mod.rs:247-300 | a received packet reaches exactly its component, an acknowledgement with its identifier and return codes |
| Clients.Client.Turns | src/state/mod.rs:213-244 | the turns of the loop form a chain, each from the components as the one before it left them; every turn but the last went on or failed with one of five errors by name, and the last one decides; pending only if the network waits or the choices are used up |
| Clients.Client.Run | src/state/mod.rs:213-244 | all assertions hold and no buffer is borrowed twice in any run that starts without a state or in Error; unless it panics every component is in a state its own runs reach; a loop that ends well was asked to disconnect and has everything on the wire behind a last DISCONNECT, and one that was asked fails only if the network stops it or that packet cannot be written |
| Clients.Client.RunServed | src/state/mod.rs:217-221 | on a network that answered every call, a loop that was asked to disconnect ends well unless the DISCONNECT packet cannot be written at all |
| States.State.Call | src/state/mod.rs:125-141 | one more publish waits, with the arguments of the call, a clear DUP flag, the class asked for and the oldest pooled or next new identifier; a panic exactly when none is left |
| Requested.AskedIsKept | src/state/mod.rs:125-157 | in every run the publishes asked for, with class, retain flag, topic, payload and label, are those that wait, were accepted or were abandoned, and the requests asked for are those accepted, in order |
| States.State.Poll | src/state/mod.rs:143-147 | a waiting request is admitted, dropped by a panic with its identifier leaked, or stays |
| States.State.Request | src/state/mod.rs:149-157 | when it waits, panics and is accepted; an accepted request is queued last with the arguments of the call and the next identifier |
| States.State.ProcessPacket | src/state/mod.rs:247-300 | every packet changes exactly the component it belongs to, and is a step of the identifier system |
| Chains.PacketResults | src/state/mod.rs:247-300 | the result of every kind of packet: PINGRESP, SUBACK and UNSUBACK are always Ok, a PUBACK or PUBCOMP exactly if it is awaited, a PUBREC exactly if there is room for its pubrel, and only a CONNACK panics |
| Chains.AcknowledgementArrives | src/state/mod.rs:258-283 | an acknowledgement reaches the history of its own component with its identifier, a SUBACK with its return codes |
| States.State.SendPackets | src/state/mod.rs:174-177 | the chain of four components, each only after SentAll; identifiers stay where they are |
| Chains.ChainTurns | src/state/mod.rs:174-177 | a component has its turn exactly if every one before it sent all, one without a turn is left alone, and the chain sent all exactly if all four did |
| Chains.ChainWrites | src/state/mod.rs:174-177 | on any connection the packets written are those the histories of publishes, receiver and requests gained, then at most one PINGREQ, in this order |
| Chains.ChainResult | src/state/mod.rs:174-177 | PartiallySent exactly at a refusal or with blocked requests, an error only where the connection fails or a topic is too long, a panic exactly if the publishes panic |
| Chains.SentAllAcknowledges | src/state/mod.rs:175 | after SentAll on an accepting connection the receiver has written the even-positioned acknowledgements and keeps the odd ones |
| States.State.Connect | src/state/mod.rs:164-168 | connecting with the shared pool is a run of the identifier system that leaks one identifier per chunk |
| Starvation.BlockedExactly | src/state/sub2.rs:93-133 | a pass gives up without an attempt to write if and only if a request is queued and await_ack is full |
| Starvation.BlockedTurn | src/state/sub2.rs:93-191 | this state is left exactly by an acknowledgement of a waiting entry |
| Starvation.BlockedUntilAnswered | src/state/sub2.rs:93-191 | over any run without one, not one packet is written and no waiting entry is repeated |
| Starvation.PingGetsItsTurn | src/state/mod.rs:174-177 | on an accepting connection the chain reaches its end, with the ping, if and only if all subscribe requests fit into await_ack |
| Starvation.BlockedStarvesPing | src/state/mod.rs:174-177 | while the requests are blocked no pass changes the state of the ping |
| SystemRuns.PublishesSend | src/state/publish2.rs:345-351 | sending publishes is a run of the identifier system |
| Pings.PingState.PingPause | src/state/ping.rs:60-84 | the pause of the state |
| Pings.PingState.Send | src/state/ping.rs:87-122 | a PINGREQ is tried exactly when it is due; if it is taken, it is an enabled step of the timed trace, and nothing changes otherwise |
| Pings.PingState.OnPingResponse | src/state/ping.rs:28-31 | success at the current time, as a step of the timed trace; like the send, it keeps the trace reachable while the clock does not run backwards |
| Pings.StillOnTime | src/state/ping.rs:60-122 | a step of the object that is made in time keeps its trace a timely one |
| Pings.ObjectKeepsAlive | src/state/ping.rs:60-122 | the PINGREQs of a timely object are within the bound of each other |
| Pings.PingTimes | src/state/ping.rs:12-122 | a PINGREQ is due more than 30000 ms after a success or 5000 ms after a PINGREQ, and the pause ends 10 ms after that time |
| Pings.ReachableRemembers | src/state/ping.rs:16-122 | the state remembers the last success and the last PINGREQ since then |
| Pings.PauseEnablesSend | src/state/ping.rs:60-122 | sleeping the pause, or longer, enables the send; sleeping without the correction does not |
| Pings.KeepAlive | src/state/ping.rs:60-122 | consecutive PINGREQs are at most latency + 30010 + delta apart in every timely run, below 60 s if latency + delta is below 29990 |
| Pings.KeepAliveIsTight | src/state/ping.rs:60-122 | the bound is reached |
| AsyncMutex.Mutex.Lock | src/mutex.rs:77-93 | the lock is given exactly when it is free; otherwise the task is registered |
| AsyncMutex.Mutex.TryWithLock | src/mutex.rs:95-118 | any closure runs only while the lock is free, and its result decides; a closure that waits exactly for the blocking value keeps the mutex careful |
| AsyncMutex.Publish | src/state/publish2.rs:388-400 | one poll of publish over the mutex: pending exactly while the lock is held or the queue is full, a panic exactly when the publish cannot be copied, otherwise queued by the same closure as in `Publishes.PublishesInner.Publish` |
| AsyncMutex.Mutex.Update | src/mutex.rs:127-133 | only the lock holder changes the value; every waiter keeps its reason to wait |
| AsyncMutex.Mutex.Abandon | src/mutex.rs:156-172 | a future that is dropped waits no longer, and no other one is forgotten |
| AsyncMutex.Mutex.Unlock | src/mutex.rs:145-154 | everybody who waits is woken |
| AsyncMutex.QueuesStayReachable | src/state/publish2.rs:366-400 | however publishers and the loop interleave over the mutex, the queues stay in a reachable state |
| MutexModel.ReachableInv | src/mutex.rs:77-154 | in every reachable mutex, whatever the closures do, everybody who waits is registered or woken, and nobody waits unwoken for a free lock |
| MutexModel.WaitsToBeWoken | src/mutex.rs:77-118 | a future that is polled and has to wait is registered and not yet woken |
| MutexModel.NoLostWakeUp | src/mutex.rs:77-118 | in every reachable mutex, a future that waits without having been woken while the lock is free is registered, and waits for the value that blocks it |

## Left out

- The codec (mqttrs2), TCP, DNS and sockets: a prefix code and a script of network replies.
- PublishTheorems.Qos2Handshake and PublishTheorems.Qos1Handshake: for callers that give one identifier to two requests at a time the handshake may be that of the other request; `Handshakes` has the full statement for identifiers from the pool.
- PublishTheorems.RetransmissionFidelity: needs identifiers that are not reused while held, an assumption that `PidOwnership.RetransmissionsAreFaithful` discharges.
- Delivery.ExactlyOnceDelivery: without retransmission and with lossless channels, because the code gives no such guarantee with repeated packets.
- TcpConnections.TcpConnection.WritePacketAsync: the network's script is finite, so "it ends" reads: a write and a flush for each waiting byte are replies enough.
- Clients.Client.Run: requests of the application arrive between iterations; in the source also at the points where an iteration waits, where it does not touch the queues.
- Wakers of the network and the timers, the event and publish channels (PubSubChannel): histories that grow at the end; that a full channel delays its publisher is not modelled.
- Copying topics measures characters, not the bytes of UTF-8.
- Time is read once per attempt to write, so a clock that moves between the write and the time stamp of one entry is not distinguished; `Duration` does not wrap or saturate.
- The last will, credentials and the port.
- UniqueIDPool and the request flag (src/state/request.rs): the first has the shape of the identifier pool and, like it, hands out the same numbers again; the second is one flag.
- A closed network connection: a read of zero bytes is not an error in the source, so the loop keeps reading; nothing is proved about noticing it.
- The commented-out code of src/packet.rs and the client handle of src/client.rs.
