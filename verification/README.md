# TinyHAN: a verified model

A Dafny 4.11 model of the TinyHAN stack, a home area network for cheap radio modules: its MAC, its
MQTT-SN client, the CRC and framing of its UDP PHY, its name/value packet format and the transmit loop
of its Si443x radio driver.  `dafny verify dfyconfig.toml` checks everything.

## The MAC (`lib/tinymac.c`)

The MAC is modelled twice.

The *reference machine* is a set of functions on values (`MacTypes`, `MacSlot`, `MacMachine`): `Step` is one
call of `tinymac_send`, `tinymac_recv_cb`, `tinymac_tick_handler` or `tinymac_permit_attach`, and `Run` any
sequence of calls.  Ticks, deadlines and the outbound sequence number are unbounded there.  A step returns
the events that the rest of the world sees, in order: packets accepted for transmission, frames handed to
the PHY, and callbacks made.

The *program* is the class `MacDevice.TinyMac`.  Its fields have the widths of the C structure (`uint32_t` ticks
and expiries, `uint8_t` sequence numbers, a 32-entry node array), its methods update them in place, and it
works on the bytes of a received frame.  Every method is proved to do what the reference machine does, its
fields being those of the machine cut to size.  So what is proved of the machine holds of the program.

Three definitions carry the main results.

* A *slot monitor* (`SlotProtocol.Observe`) reads nothing but the event log of one slot and knows what a
  stop-and-wait sender may do: one packet in flight, transmitted unchanged at most four times, nothing else
  sent meanwhile, and one outcome, reported to that packet's callback.
* A call is *ordinary* (`OrdinaryRuns.Ordinary`) unless it overwrites a slot that is busy, or takes leave of a
  sleepy node.  `StepCoupledIff` shows that this condition is exact: a call that starts with every slot in step
  with its log ends so if and only if the call is ordinary.  `LostOutcome.OutcomeNeverReported` shows what is lost
  otherwise.
* A *world* (`Network.World`) is a coordinator and any number of clients.  Every frame ever handed to a PHY stays
  available for delivery to any device, any number of times, in any order.  A run of a world is *orderly* unless the
  coordinator passes an address on, which it does only to a newcomer after 32 others (`Registry.AddressPassedOnIff`); with
  at most 32 clients every run is orderly.

What each call does is stated apart from the functions that compute it, on header bytes, slots and packet bytes:
`Reception` for `tinymac_recv_cb`, one law per packet type; `Transmission` for `tinymac_send`; `Ageing` for
`tinymac_tick_handler`; `MqttsnTraffic` for the MQTT-SN client; `Wire` for the bytes of frames.

Where a promise turned out not to hold of the code, the code is kept, a failing run is exhibited and the condition
under which the promise holds is proved.

| promise | holds | fails in |
|---|---|---|
| every slot keeps to the stop-and-wait protocol | exactly under ordinary calls (`StepCoupledIff`) | `OverwriteLosesOutcome`, `OutcomeNeverReported` |
| the heartbeat test measures elapsed time | exactly in the first half of a wrap (`HeartbeatExactIff`); so whenever a node was heard, or looked at and kept, in the last 2^31 ticks (`HeartbeatExact`) | `HeartbeatMisses` |
| a tick drops a registered node exactly when it has been silent too long | in ordinary runs (`SilentNodeDropped`); the exact condition for all runs is `DroppedIff` | `HeardNodeDropped` |
| success means delivery | for acks less than 256 headers old, in orderly runs (`DeliveryIsTruthful`) | `StaleAckMisleads`, `PassedOnAddressMisleads` |
| no two clients share an address | in orderly runs (`NoSharedAddress`) | `AddressShared` |
| a connected MQTT-SN client has registered its topics | exactly if no PUBACK cut its pass short (`ConnectedIsRegisteredIff`) | `PubackEndsPass` |
| a burst of sixteen bits is noticed | exactly by where it lies (`WindowHidesIff`) | `StraddlingBurstEscapes` |

## The other parts

* `MqttsnMachine`, `MqttsnRuns`, `MqttsnTiming`, `MqttsnTraffic`, `MqttsnClient` (`lib/mqttsn-client.c`): the client as a
  machine, as a class over its 64-byte message buffer, an observer that reads only the traffic, and the bytes sent.
* `Crc`, `UdpPhy`, `Bursts` (`lib/phy-udp.c`): the table-driven CRC against long division of the message polynomial,
  framing, and which bursts of errors are noticed.
* `TinyApp` (`lib/tinyapp.c`): serialiser and deserialiser of name/value packets.
* `Si443x` (`lib/phy-si443x.c`): the FIFO fill of `phy_send` against every pattern of interrupts.
* `Words`, `Wire`: integers as bytes, and MAC frames as bytes.

## Reading the code and its documentation

Where they disagree the model follows the code.

* `tinymac_send` is documented to return a sequence number; it returns 0 or -1.
* A comment on Poll says that it solicits an ack.  A Poll does not ask for one; it only makes the coordinator
  send what it has deferred.
* A beacon interval of `TINYMAC_BEACON_INTERVAL_NO_BEACON` does not stop periodic beacons; it gives one every
  2^15 ticks.
* Immediate sends that need no buffer never call back.
* The CRC travels least significant byte first.  A burst across the end of the payload can therefore go
  unnoticed, unless 7, 9 or 11 of its sixteen bits are payload (`Bursts.WindowHidesIff`); bursts inside the payload
  cannot.
* A SUBSCRIBE is sent two bytes longer than its topic name requires.

## Model

| member | source | states |
|---|---|---|
| OrdinaryRuns.StepCoupledIff | lib/tinymac.c:234-291 | Idle slots have no timer armed; SendPending has validity armed, ack timer off and a sleepy node; WaitAck has the ack timer armed and validity armed exactly when sleepy; attempts plus retries is 3 or 4. A call keeps this of every slot if and only if it is ordinary. |
| OrdinaryRuns.OrdinaryRunCoupled | lib/tinymac.c:347-414 | The same over every ordinary run of either role, from any state that has it. |
| OrdinaryRuns.InitCoupled | lib/tinymac.c:889-931 | A MAC that has just been initialised has it, with an empty log. |
| OrdinaryRuns.RegRequestIff | lib/tinymac.c:628-673 | A registration request keeps every slot in step with its log if and only if the slot it is given is not busy. |
| OrdinaryRuns.DeregRequestIff | lib/tinymac.c:676-706 | A deregistration request does so if and only if its slot is idle and its answer is not deferred. |
| SlotProtocol.TransmitFollows | lib/tinymac.c:338-376 | Accepting a packet opens one flight in the monitor and arms the timers that its state calls for. |
| SlotProtocol.FlushFollows | lib/tinymac.c:385-417 | Sending a deferred packet is one transmission of the buffered frame, and an outcome when no ack is due. |
| SlotProtocol.AckReceivedFollows | lib/tinymac.c:823-843 | A matching ack is the one outcome of a packet that was transmitted. |
| SlotProtocol.DespatchFollows | lib/tinymac.c:113-122 | Timeouts retransmit the same frame within the budget or report one failure, for any coupled record. |
| Deadlines.AcceptedSendResolves | lib/tinymac.c:234-291 | In every ordinary run an accepted send ends in exactly one outcome, given to its own callback, within 5 ticks for an awake node and within its validity for a sleepy one, whatever arrives meanwhile. |
| Deadlines.ResolvedInTime | lib/tinymac.c:254-291 | Any packet in flight is resolved before its remaining budget of ticks is spent. |
| Deadlines.FlightIsStable | lib/tinymac.c:259-280 | From acceptance to outcome the buffered frame and callback never change, the slot emits nothing but copies of that frame, and never more than four. |
| Deadlines.OneFlight | lib/tinymac.c:394-407 | What a log that the monitor accepts looks like while a flight is open. |
| Network.DeliveryIsTruthful | lib/tinymac.c:766-843 | In every orderly run of a coordinator and any number of clients from switching on, success reported for a packet that demands an ack goes to that packet's callback and means that the peer has already, in one call, received that very frame, acknowledged it and passed its data up, if the ack is less than 256 headers old. |
| Network.SuccessIsTruthful | lib/tinymac.c:823-843 | The same from any world that satisfies the invariant, whatever the last call is. |
| Network.NextInv | lib/tinymac.c:709-875 | Every call of every device that passes no address on keeps the world's invariant: acks in the air were earned, demands in the air come from the slot that still holds or has outlived them, grants agree with the registry, registered clients hold the address of the slot that stores their UUID. |
| Network.RunInv | lib/tinymac.c:709-992 | The same over every orderly run. |
| Network.NoSharedAddress | lib/tinymac.c:606-624 | In an orderly run no two registered clients of the coordinator ever hold the same address. |
| Network.SmallNetworkOrderly | lib/tinymac.c:162-178 | Every run of a coordinator and at most 32 clients from switching on is orderly. |
| Crowd.AddressShared | lib/tinymac.c:162-178 | A run of a coordinator and 33 clients after which two registered clients hold the same address. |
| Crowd.PassedOnAddressMisleads | lib/tinymac.c:823-843 | Such a run in which the coordinator then reports success for any given packet, on a fresh ack, though the client that the slot belongs to never received it. |
| Network.SuccessNeedsAck | lib/tinymac.c:823-843 | Success for a packet that demands an ack is reported only on an ack from that slot's node with the packet's sequence byte. |
| Network.AckReturns | lib/tinymac.c:419-445 | A delivered ack answers a frame that this device sent, from the slot that hears the ack. |
| StaleAck.StaleAckMisleads | lib/tinymac.c:827-838 | The age limit cannot be dropped: a run from switching on in which an ack 256 headers old makes a client report success for a packet that no device has received. |
| StaleAck.FreshAckArrives | lib/tinymac.c:823-843 | A run that ends with a fresh ack and a reported success, for any given packet. |
| Exchanges.AckAnswers | lib/tinymac.c:766-811 | An ack is sent only for the frame that this call received, from a known source, and the same call passes its data up. |
| Exchanges.AcksAreMac | lib/tinymac.c:419-445 | Frames of type Ack leave a device in no other way. |
| Registry.LookupIsIndexing | lib/tinymac.c:129-147 | Looking a node up by address is indexing a live slot, and fails exactly when there is none. |
| Registry.NetworkFullAnswered | lib/tinymac.c:642-673 | In every run of a coordinator from switching on with nonzero UUIDs, a call answers with status network-full if and only if it takes a request whose UUID is not stored while all 32 slots are live, and the answer fits the MTU. |
| Registry.NetworkFullIff | lib/tinymac.c:149-178 | The choice of slot behind it, on any safe table. |
| Registry.SlotForOwner | lib/tinymac.c:642-647 | The slot given to a UUID is its own, or one that is not live. |
| Registry.RunTidy | lib/tinymac.c:628-673 | In every run from switching on with nonzero UUIDs, slot i has address i+1, no UUID is stored twice, UUID 0 marks slots that were never used, and no buffered frame grants an address. |
| Registry.StepRegistry | lib/tinymac.c:628-673 | One call from such a state keeps it so; the only UUID it moves, and the only address it grants, are those of the request that it records. |
| Registry.RunLiveSlotKept | lib/tinymac.c:162-178 | In every such run no call hands a live slot to another UUID. |
| Registry.AddressPassedOnIff | lib/tinymac.c:162-178 | In every such run a call takes an address away from its UUID if and only if it is a request from a UUID that is not stored when all 32 slots have been given out and some slot is not live. |
| Registry.StickyAddressing | lib/tinymac.c:149-178 | When at most 32 nonzero UUIDs ever ask to register, two success responses are for the same UUID if and only if they name the same address, through expiry and re-registration. |
| Registry.RunSticky | lib/tinymac.c:642-657 | Over such a run every stored UUID stays where it is and every grant is recorded. |
| Registry.InitTidy | lib/tinymac.c:889-900 | Initialisation leaves a registry of which all this holds. |
| Timers.RunTimely | lib/tinymac.c:101-122 | In every run each armed timer's deadline is ahead, by no more than its longest delay. |
| Timers.TimerTestExact | lib/tinymac.c:113-122 | However often the 32-bit tick has wrapped, the signed-difference test fires an armed timer on exactly the tick whose unbounded count is its deadline. |
| Timers.HeartbeatTestIff | lib/tinymac.c:957-968 | For a node heard in the past, the heartbeat test agrees with the unbounded elapsed time if and only if the time overdue, if any, lies in the first half of a wrap of the counter. |
| Heartbeats.HeardInThePast | lib/tinymac.c:767-772 | In every run from switching on no slot was last heard after the current tick. |
| Heartbeats.HeartbeatExactIff | lib/tinymac.c:957-968 | So the equivalence holds of every slot in every run. |
| Heartbeats.HeartbeatExact | lib/tinymac.c:957-968 | In every run the test is exact, if at each look so far the slot had been heard, or looked at and kept, within the last 2^31 ticks. |
| Limits.HeartbeatMisses | lib/tinymac.c:957-968 | A run from switching on after which a registered node is overdue by more than 2^31 ticks, is looked at, and stays registered. |
| Limits.PingedForever | lib/tinymac.c:234-244 | A sleepy node for which a packet is always waiting is never looked at by the heartbeat test, for any length of time. |
| Limits.OverwriteLosesOutcome | lib/tinymac.c:650-653 | Whatever a busy slot was doing, a registration request for its UUID followed by a send to it makes the slot accept a second packet while the first is open. |
| LostOutcome.OutcomeNeverReported | lib/tinymac.c:650-653 | Then, in any continuation in which no send offers the first packet's callback again, no outcome for that slot is ever reported to it. |
| LostOutcome.RunKeeps | lib/tinymac.c:234-291 | A callback that a slot does not hold hears nothing about that slot in any run that does not offer it. |
| Attachment.RunAttached | lib/tinymac.c:502-624 | In every run of a client: the address is unassigned exactly when it is not Registered, the network is ANY exactly when it is neither Registering nor Registered, those two have a live coordinator record, and Registering has its timer armed at most 4 ticks ahead. |
| Attachment.StepAttached | lib/tinymac.c:188-228 | Every call keeps that, whatever frame or timeout it handles. |
| Attachment.RegisteringEnds | lib/tinymac.c:519-555 | A client cannot stay in Registering past that deadline, and nothing moves the deadline. |
| Presence.PresenceIsReported | lib/tinymac.c:188-213 | In every ordinary run of a coordinator from switching on, the last thing the application was told of a slot by reg_cb and dereg_cb is an arrival if and only if the slot is live. |
| Presence.StepTells | lib/tinymac.c:628-706 | Every call tells the application of each node that comes or goes, and of no other. |
| Beacons.BeaconSchedule | lib/tinymac.c:944-952 | For interval exponent k up to 15 and offset below 2^k, any run of calls with 2^k ticks in it sends exactly one periodic beacon, wherever the 16-bit slot counter stands. |
| Beacons.RunInStep | lib/tinymac.c:944-952 | The periodic beacons of any run are exactly those that fell due, across wraps of the counter. |
| Beacons.PeriodicListsPending | lib/tinymac.c:466-494 | In every run of a coordinator from switching on with nonzero UUIDs, a periodic beacon is sent only by a tick, and lists exactly the addresses whose slot then holds a deferred packet, each once. |
| Beacons.PollsOnce | lib/tinymac.c:557-568 | In every run of a client, a call that receives a frame polls exactly once if the frame is a beacon that the client takes and that lists it while its coordinator record is idle, and not at all otherwise. |
| Beacons.FlushedExactlyOnce | lib/tinymac.c:770-780 | A frame accepted from a live slot sends that slot's deferred packet exactly once in the call, despite the two places that do it, and leaves nothing deferred. |
| Reception.DeliveredIff | lib/tinymac.c:806-811 | For every state and frame: data is passed up once, last, whole and from the live slot with the source address (none if either address is unassigned), if and only if the frame is data whose network, destination and source the device takes; nothing else is passed up. |
| Reception.AckedIff | lib/tinymac.c:774-780 | An ack is sent, first, if and only if a frame taken from a known slot asks for one; its fields are those of the frame turned round, with data-pending set exactly when that slot holds a deferred packet. |
| Reception.TakenIff | lib/tinymac.c:720-783 | Which frames are taken, on network, destination, source and permit alone, and from which slot. |
| Reception.OthersIgnored | lib/tinymac.c:721-752 | A frame for somebody else changes nothing and brings nothing out. |
| Reception.StrangerAnswered | lib/tinymac.c:782-802 | A frame from an address that no live slot has makes a coordinator send one address-invalid response to that address, and changes nothing else; a client ignores it. |
| Reception.DataTaken | lib/tinymac.c:806-811 | The whole effect of data, polls, unknown types and packets for the other role: the slot is heard and flushed, data goes up, nothing more. |
| Reception.BeaconRequestTaken | lib/tinymac.c:448-495 | The whole effect of a beacon request on a coordinator, with every field of the beacon it sends. |
| Reception.AckTaken | lib/tinymac.c:823-843 | The whole effect of an ack: it settles the packet of its source's slot if and only if that is on the air, or goes out in the same call, and has its number. |
| Reception.RequestTaken | lib/tinymac.c:628-673 | The whole effect of a registration request: which slot it is given, what is stored there, and what is told to everybody. |
| Reception.LeaveTaken | lib/tinymac.c:676-706 | The whole effect of a deregistration request, which only the slot's own address and UUID can make. |
| Reception.BeaconTaken | lib/tinymac.c:502-575 | The whole effect of a beacon on a client: it binds and asks to register, polls, or does nothing, with every field of what it sends. |
| Reception.ResponseTaken | lib/tinymac.c:574-624 | The whole effect of a registration response on a client: when it takes the address, when it loses its own, and when it lets it pass. |
| Eviction.UnknownAddressLost | lib/tinymac.c:782-802 | In any world of the invariant: a frame from an address that the coordinator does not know is answered, and every registered client at that address that hears the answer gives up address and network. |
| Transmission.SendsIff | lib/tinymac.c:995-1019 | A send accepts or transmits something if and only if it is data of at most 128 bytes within the MTU and the first live slot with that address is idle. |
| Transmission.SentIfReady | lib/tinymac.c:315-383 | Then its events, every field of the frame, and the slot afterwards are as given, for a listening node with and without an ack and for a sleepy one. |
| Transmission.RefusedUnlessReady | lib/tinymac.c:323-345 | Otherwise nothing happens, but that a busy slot uses up a sequence number. |
| Ageing.SilentNodeDropped | lib/tinymac.c:957-968 | In every ordinary run of a coordinator in which the test is exact, a tick drops a registered node, sleepy or not, and reports it gone, if and only if nothing was heard of it for 4 * (2^heartbeat + 2) ticks. |
| Ageing.DroppedIff | lib/tinymac.c:954-973 | The same without the restriction to ordinary runs: exactly when a slot is reported gone, and exactly when it is free after the tick. |
| Ageing.BusyDroppedIff | lib/tinymac.c:254-291 | For every coordinator: a busy slot is dropped by a tick, and reported gone, if and only if its ack is overdue and no copies are left. |
| Ageing.HeardNodeDropped | lib/tinymac.c:650-653 | A run from switching on in which a node that has just registered again is dropped by the next tick. |
| Ageing.CoordinatorTicks | lib/tinymac.c:938-973 | The whole state after a coordinator's tick: slot counter, beacon number, and each slot as its timers and its silence call for. |
| Ageing.CoordinatorTells | lib/tinymac.c:944-973 | The events of that tick: the beacon with all its fields if one is due, and then those of the slots in order. |
| Ageing.ClientTicks | lib/tinymac.c:974-990 | The whole effect of a client's tick: the beacon request and its 40-tick timer, the coordinator's timers, and giving up on a request whose time is out. |
| Wire.ParseLayout | lib/tinymac.c:709-875 | Every buffer of six bytes and more is read as a frame, field by field, by type and minimum size; a shorter one as none. |
| Wire.HeaderLayout | lib/tinymac.h:41-93 | Where each header field is in the bytes sent. |
| Wire.UuidLayout | lib/tinymac.h:95-139 | A UUID is the eight bytes after the header, low byte first. |
| Wire.BeaconLayout | lib/tinymac.h:95-107 | Where the fields of a beacon are. |
| Wire.RequestLayout | lib/tinymac.h:116-123 | Where heartbeat and sleepy flag of a registration request are. |
| Wire.BodyLayout | lib/tinymac.h:125-148 | Where the fields of the other packets are. |
| Wire.FrameRoundTrip | lib/tinymac.h:41-148 | Every frame a MAC sends is read back whole from its bytes, but for the high part of its sequence number. |
| MacDevice.LowByteSuffices | lib/tinymac.c:823-838 | A receiver that sees only the low byte of a sequence number does, in its state and on the air, what it would do on seeing all of it. |
| MacDevice.ReceivedAsSent | lib/tinymac.c:709-765 | So the bytes of a frame do, in state and on the air, what the frame itself does in a world. |
| MacDevice.TinyMac.constructor | lib/tinymac.c:889-931 | Initialisation reaches the machine's initial state. |
| MacDevice.TinyMac.RecvCb | lib/tinymac.c:709-875 | On any bytes whatever, the device follows the machine's step for the frame they carry; a buffer shorter than a header does nothing; on the bytes of any frame that a MAC sends it follows the step for that frame, and emits the same. |
| MacDevice.TinyMac.TickHandler | lib/tinymac.c:938-993 | A tick on 32-bit words follows the machine's tick on unbounded time. |
| MacDevice.TinyMac.SendData | lib/tinymac.c:995-1019 | A send follows the machine, and returns 0 exactly when something was accepted or sent (`Transmission.SendsIff`) and the PHY took it or the node is sleepy, else -1. |
| MacDevice.TinyMac.PermitAttach | lib/tinymac.c:1032-1037 | Only the permit flag changes. |
| MacDevice.TinyMac.FindAddr | lib/tinymac.c:129-147 | The scan finds the node that the machine's lookup names. |
| MacDevice.TinyMac.FindFree | lib/tinymac.c:162-178 | One scan finds the first slot that was never used or, failing that, the first that is not live; MAX_NODES if there is neither. |
| MacDevice.TinyMac.TxPacket | lib/tinymac.c:315-383 | Sizes, busy slots, deferral, retransmission buffers and result as in the machine; the sequence byte is the low byte of the machine's count. |
| MacDevice.TinyMac.TxPending | lib/tinymac.c:385-417 | Flushes the slot as the machine does. |
| MacDevice.TinyMac.TxAck | lib/tinymac.c:419-445 | Acknowledges, and flushes the slot if the PHY took the ack. |
| MacDevice.TinyMac.SendBeacon | lib/tinymac.c:448-496 | Sends the machine's beacon, with the pending list built by a scan. |
| MacDevice.TinyMac.OnAckTimeout | lib/tinymac.c:254-291 | Retransmits, defers or gives up as the machine does; losing the coordinator resets the client. |
| MacDevice.TinyMac.DespatchAckTimer | lib/tinymac.c:113-122 | The 32-bit test despatches the timer exactly when its unbounded deadline has come. |
| MacDevice.TinyMac.TickEach | lib/tinymac.c:954-973 | The loop over the node array does, slot by slot, what the machine does to the whole table, with the events in slot order. |
| MqttsnRuns.StepFollows | lib/mqttsn-client.c:299-474 | Every call, for any inbound packet, keeps the client where an observer of the traffic says it is, and none leaves it in Registering. |
| MqttsnRuns.RunFollows | lib/mqttsn-client.c:299-474 | The same over every run from initialisation. |
| MqttsnRuns.WaitingIffArmed | lib/mqttsn-client.c:43-64 | In every run the retry timer is armed exactly in Connecting, Busy and Disconnecting; the buffer then holds the matching request unchanged except for DUP, and repeats plus remaining retries is 3. |
| MqttsnRuns.ResentIsMarked | lib/mqttsn-client.c:303-313 | Whatever is sent again is the last message sent, with DUP if it is a SUBSCRIBE or PUBLISH, and at most three times. |
| MqttsnRuns.RegisteredAfterFullPass | lib/mqttsn-client.c:387-404 | is_registered is set only when the log since the last accepted CONNACK holds one request per topic in table order, each followed by its matching reply, and nothing else sent; the places in the log are exhibited. |
| MqttsnRuns.TopicIdIsLatest | lib/mqttsn-client.c:112-172 | In every run the stored id of a topic is the one in the latest accepted reply for it, and nothing is stored past the application's table. |
| MqttsnRuns.ConnectedIsRegisteredIff | lib/mqttsn-client.c:387-404 | In every run a connected client is registered if and only if no PUBACK was acted on while the pass that followed the last accepted CONNACK waited for a reply. |
| MqttsnRuns.PubackEndsPass | lib/mqttsn-client.c:206-237 | For every client with a topic, three calls from initialisation (connect, an accepted CONNACK, a PUBACK) that end connected and not registered. |
| MqttsnTraffic.PublishSends | lib/mqttsn-client.c:441-474 | In every run a publish of at most 57 bytes by a connected client sends one message: length, type, QoS, the topic's latest granted id, one more than the number of publishes so far modulo 2^16, and the data; any other publish does nothing. |
| MqttsnTraffic.PublishesNumbered | lib/mqttsn-client.c:468-469 | In every run the n-th PUBLISH in the log carries message id n modulo 2^16. |
| MqttsnTraffic.PubackReports | lib/mqttsn-client.c:206-237 | In every run a client that waits for a PUBACK reports the publish, accepted or not, and is connected again, if and only if a PUBACK with the number of publishes so far comes. |
| MqttsnTraffic.PublishedIff | lib/mqttsn-client.c:175-204 | In every run a handler call passes data up if and only if the packet is a PUBLISH under the latest granted id of a subscription: its bytes from the eighth on, to the first such subscription, once. |
| MqttsnTraffic.ReplyMoves | lib/mqttsn-client.c:66-242 | In every run a packet is acted on if and only if it answers what the client waits for, for every packet type, and the state that follows is the one given. |
| MqttsnTraffic.ConnectSends | lib/mqttsn-client.c:407-424 | The bytes of CONNECT, sent exactly when Disconnected. |
| MqttsnTraffic.DisconnectSends | lib/mqttsn-client.c:426-439 | The bytes of DISCONNECT with and without a duration, sent exactly when not Disconnected. |
| MqttsnTraffic.PingSentIff | lib/mqttsn-client.c:322-328 | In every run a handler call sends a PINGREQ, first, if and only if the client is connected and nothing was sent for 10 s. |
| MqttsnTiming.GivesUpAfterTwenty | lib/mqttsn-client.c:303-320 | With handler calls at most 1 s apart, an unanswered request is repeated exactly 3 times, at 5, 10 and 15 s, and the client is Disconnected exactly when 20 s have passed. |
| MqttsnTiming.RequestStartsClock | lib/mqttsn-client.c:407-474 | Every connect, disconnect and QoS 1 publish that waits for a reply starts that clock. |
| MqttsnTiming.PassStartsClock | lib/mqttsn-client.c:387-404 | So does every request of a registration pass. |
| MqttsnTiming.NeverSilent | lib/mqttsn-client.c:322-328 | In every run, a handler call that finds the client connected ends less than the keep-alive period after something was last sent. |
| MqttsnTiming.PingClock | lib/mqttsn-client.c:43-55 | The ping time is always the keep-alive period after the last call that sent anything. |
| MqttsnClient.MqttClient.constructor | lib/mqttsn-client.c:275-287 | A fresh client is in the machine's initial state and in step with its empty log. |
| MqttsnClient.MqttClient.Handler | lib/mqttsn-client.c:299-405 | The handler does what the machine does and keeps the client in step with its log. |
| MqttsnClient.MqttClient.RegackHandler | lib/mqttsn-client.c:101-136 | The write to the topic id table is in range, and the client goes on with the pass. |
| MqttsnClient.MqttClient.SubackHandler | lib/mqttsn-client.c:138-173 | The same for a SUBACK. |
| MqttsnClient.MqttClient.FindSubscription | lib/mqttsn-client.c:188-195 | The search returns the first subscription with the id, and for a nonzero id looks only at entries of the application's table. |
| MqttsnClient.MqttClient.CheckRetry | lib/mqttsn-client.c:303-320 | What is sent again is the buffer up to the length of the request, which is within the buffer. |
| MqttsnClient.MqttClient.ConnectTo | lib/mqttsn-client.c:407-424 | Builds and sends CONNECT as the machine does, only when Disconnected. |
| MqttsnClient.MqttClient.DisconnectFrom | lib/mqttsn-client.c:426-439 | Sends DISCONNECT as the machine does, unless Disconnected. |
| MqttsnClient.MqttClient.PublishData | lib/mqttsn-client.c:441-474 | Sends PUBLISH as the machine does (`MqttsnTraffic.PublishSends`) and returns its message id as it lies in memory, or 0 when it cannot. |
| Crc.UpdateCrc | lib/phy-udp.c:83-87 | The table loop is the division of the message bits by x^16 + x^12 + x^5 + 1, bit by bit, from any starting register. |
| Crc.CrcIsRemainder | lib/phy-udp.c:83-87 | The CRC of every byte string is the remainder of its bits, sixteen zeros appended, by long division. |
| Crc.ReadTable | lib/phy-udp.c:44-77 | Entry x of the 256-entry table is the CRC of the byte x. |
| Crc.BurstDetected | lib/phy-udp.c:44-87 | Two payloads of equal length, however long, that differ only inside sixteen consecutive bits have different CRCs. |
| UdpPhy.CrcOfAll | lib/phy-udp.c:220-226 | Folding over any fragmentation is the CRC of the concatenation. |
| UdpPhy.Send | lib/phy-udp.c:209-234 | The datagram is the concatenated fragments followed by their CRC. |
| UdpPhy.Receive | lib/phy-udp.c:164-207 | A payload is passed up exactly when the receiver listens and the last two bytes of the first 256 are the CRC of those before them. |
| UdpPhy.SentIsReceived | lib/phy-udp.c:189-232 | For totals up to the MTU the receiver passes up exactly what was sent. |
| UdpPhy.DamagedPayloadDropped | lib/phy-udp.c:193-199 | A datagram damaged inside sixteen consecutive bits of its payload is dropped, by the receiver's cut to 256 bytes too if the payload is within the MTU. |
| UdpPhy.DamagedCrcDropped | lib/phy-udp.c:193-199 | So is one whose damage is all in its CRC. |
| UdpPhy.StraddlingBurstEscapes | lib/phy-udp.c:193-232 | Every datagram with a payload has damage in its last payload bit and its CRC that is passed up as a different payload. |
| Bursts.WindowHidesIff | lib/phy-udp.c:193-232 | For every payload within the MTU and every window of sixteen bits: some damage inside the window is accepted by the receiver if and only if the window starts in the datagram and holds the last k bits of the payload and the first of the CRC, with k from 1 to 15 but not 7, 9 or 11. |
| TinyApp.PacketRoundTrip | lib/tinyapp.c:133-226 | Deserialising what was serialised reports exactly the items, each under the last profile switched to before it; the size is 1 plus the sum of the item sizes. |
| TinyApp.SerialisedReadBack | lib/tinyapp.c:141-176 | Every list of items is read back from its bytes. |
| TinyApp.PacketIsSerialised | lib/tinyapp.c:182-226 | Every well-formed packet is the serialisation of its items. |
| TinyApp.ItemLayout | lib/tinyapp.c:141-176 | The bytes of every item: length code and identifier, the length of a string, the value low byte first. |
| TinyApp.CallOf | lib/tinyapp.c:211-222 | Each item that is not a switch is reported at its rank, with its value, under the profile of the nearest switch before it. |
| TinyApp.Deserialise | lib/tinyapp.c:182-226 | The loop makes exactly the calls that the items of a well-formed packet call for. |
| TinyApp.Packet.Put8 | lib/tinyapp.c:141-147 | The buffer holds the serialisation of the items so far and this one. |
| TinyApp.Packet.Put16 | lib/tinyapp.c:149-156 | The same for a 16-bit item. |
| TinyApp.Packet.Put32 | lib/tinyapp.c:158-165 | The same for a 32-bit item. |
| TinyApp.Packet.PutText | lib/tinyapp.c:167-176 | The same for a string of fewer than 256 bytes. |
| TinyApp.Packet.Size | lib/tinyapp.h:144-147 | The size is 1 plus the sum of the item sizes. |
| Si443x.PhySend | lib/phy-si443x.c:486-566 | For every fragment list, empty fragments included, and every pattern of interrupts and state changes: the FIFO bytes are always a prefix of the concatenation; the radio refuses unless found in standby or listening; it is still filling exactly while no more turns have filled than there are interrupts before the last byte; success comes exactly when a turn after the last byte finds the packet sent, with every byte written once and transmit mode entered once. |
| Si443x.Sender.WriteByte | lib/phy-si443x.c:525-531 | The walk to the next byte never passes the end of the fragment list. |
| Si443x.Sender.Fill | lib/phy-si443x.c:518-538 | A fill stops at the first byte after which an interrupt is pending, or at the end. |
| Si443x.EnabledIff | lib/phy-si443x.c:547-552 | Transmit mode is entered exactly when a turn leaves the FIFO full or everything written, and once. |
| Si443x.TurnWrites | lib/phy-si443x.c:513-538 | A turn that is the first, or follows one that left the driver in Tx, writes up to the next byte with an interrupt pending or to the last; any other writes nothing. |
| Si443x.WrittenIs | lib/phy-si443x.c:513-553 | After n turns everything is written if and only if more of them fill than there are interrupts before the last byte; if not, the bytes written are those up to the interrupt whose number is that of the filling turns. |
| Si443x.UndisturbedFill | lib/phy-si443x.c:513-538 | With no interrupt the first turn writes everything. |
| Si443x.TurnsGrow | lib/phy-si443x.c:514-553 | No turn takes a byte back or enters transmit mode a second time. |

## Left out

- Sockets, polling, SPI, hardware registers, sleep and power control (`phy_standby`, `phy_delayed_standby`, `phy_listen`), signal strength, tracing and the node dump.
- The programs under `examples/` and `tools/`, and the radio configuration and register tables.
- Profile and item name tables of `lib/tinyapp.c`: static data.
- Application callbacks that call back into the MAC or the MQTT-SN client: callbacks are events that do not re-enter.
- A MAC that is initialised a second time on a context that is not zeroed.
- MacDevice.TinyMac.RecvCb: assumes a little-endian machine with packed structures and 32-bit `int`, as the C code does when it overlays structures on a buffer.
- MacDevice.TinyMac.TickHandler: beacon intervals of 32 and more, for which the shift in the C code is undefined, are modelled as powers of two.
- MacDevice.TinyMac.SendData: when the PHY refuses a frame the model still records it as handed over; the error code is -1 whatever the PHY's own is.
- Network.DeliveryIsTruthful: clients have distinct nonzero UUIDs, as the identifiers that they are meant to be; two clients with one UUID are given one slot and one address. Runs in which an address is passed on are shown to be able to fail, not characterised further.
- Registry.StickyAddressing: UUID 0 marks a slot that was never used and is excluded.
- Slot coupling after calls that are not ordinary, beyond the fact that it is lost.
- Any claim that a client in BeaconRequest has its timer armed: a beacon without permit-attach cancels it.
- MqttsnTiming.GivesUpAfterTwenty: the clock is unbounded; a wrap of a 32-bit `time_t` is not modelled, and the clock is constant during a call.
- MqttsnClient.MqttClient.FindSubscription: for the reserved topic id 0 the C code can read past the end of the application's table; the model does not.
- MqttsnClient.MqttClient.PublishData: the flag says whether the QoS is positive; negative values, which the code notes as unsupported, and topic indexes of 16 and more are excluded, and message ids repeat after 65535 publishes.
- MqttsnMachine.Config: at most 16 topics, names of at most 57 bytes and a client id of at most 15, which the C code assumes without checking.
- TinyApp.Deserialise: truncated packets, and a profile switch without a value, are excluded, as the C code reads past their end; item identifiers have six bits.
- Si443x.PhySend: whether the wait loops end depends on the hardware; a run is observed for any given number of event handler calls. The length register is not modelled.
- UdpPhy.Send: the datagram is put together by the operating system from several calls; their failure is not modelled.
