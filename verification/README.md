# MQTT client engine, SSDP codec and neighbour list, and `str_split`: a verified model

This project models three parts of the repository and proves what they are for.

**The MQTT 3.1.1 client engine** (`mqtt/mqtt.c`, `include/mqtt.h`), from the bytes up:

- `Lfsr`, `PacketIds`: the 16-bit shift register that draws packet ids, and the search over the queue.
- `FixedHeader`, `Wire`, `Packets`, `Decoders`, `Responses`: the packers, in place on a byte array, each proved
  against the image of its packet; the unpackers; and decoders written from sections 3.1, 3.8 and 3.10 of MQTT 3.1.1
  for the packets that only a broker reads.
- `QueueSpec`, `MessageQueue`: the send queue, whose packets grow from the front of one buffer and whose records
  grow from its back, as a class that refines a sequence of messages.
- `Session`: every call of the client as a function on a state, which also carries a history (what was registered,
  sent, received, dispatched and delivered). `Client`: the same calls in place, on the queue's and the receive
  buffer's arrays, each proved to compute the function.
- `Staging`, `Handling`, `Sending`, `Calls`: what each kind of step does, said a second time and in another form (a table
  of packets and replies, the set of messages due, room in bytes, what a broker reads in a packet), and proved of
  `Session` for every state. `Obligations`, `Replies` and `Handshakes` draw from it what the client must do.
- `Ledger`, `Discipline`, `Delivery`, `Balance`, `Early`, `Stream`: the invariants of that history; `Runs` proves that
  every call keeps them, `Progress` that every call moves forward, `Receipts` what the application is told. `Promises`
  states the results over all runs, `Witnesses` shows runs at which they end, and `Broker` states the results over all
  joint runs with a broker behind two ordered byte streams, which answers what it takes when and in what order it likes.

A run starts from a freshly initialised client and makes calls in any order: connect, publish, subscribe,
unsubscribe, ping, disconnect, send, receive, or a change of the response timeout. The clock, the outcome of every
socket read and write, and the memory that a new record is laid over are parameters, so they are arbitrary.

**The SSDP text codec and neighbour list** (`lssdp/lssdp.c`): `SsdpText` says what is printed and what the parser
makes of any text, `Ssdp` is the parser in place, `SsdpRoundTrip` proves what it does to any line and that it inverts
the three printers.
`Neighbors` is the list as a value with its properties over all runs, `NeighborList` the linked list on the heap.

**`str_split`** (`src/parse.h`): `StrSplit` sets the count made in advance against the tokens that `strtok` cuts.

Where code and documentation disagree, the model follows the code:

- The packers of SUBSCRIBE and UNSUBSCRIBE are documented to take up to eight topics
  (`include/mqtt.h`), but refuse a list that reaches eight: `Packets.EightTopicsRefused` is such a list, and
  `Packets.TopicLimit` says that they refuse exactly those.
- A PUBLISH with fewer than four bytes behind its fixed header is legal in MQTT 3.1.1 (QoS 0, a topic and payload of
  at most one character together), but is rejected as malformed. `Responses.ResponseRoundTrip` is exact about it.
- Receiving at QoS 2 is at most once, not exactly once. A PUBREC record that is COMPLETE but still queued swallows a
  new PUBLISH with its id: `Witnesses.SecondPublishIsSwallowed` is a run of five states in which it does, and
  `Promises.Qos2DeliveredIff` says exactly when a new PUBLISH is delivered.
- An acknowledgement can complete a message that was never sent, because the search goes by type and id alone.
  `Witnesses.LatePing` is such a run after a timeout, `Witnesses.OverAckedPing` one with an acknowledgement too many;
  `Promises.CompleteWasSent` says that without either it does not happen, and `Broker.CompleteWasSent` that a broker
  that answers nothing twice never makes it happen without a timeout.
- A header field that two lines name does not hold the second value if that is shorter, but the second value and the
  end of the first: the copy carries no terminator (`SsdpRoundTrip.SecondValueOverlays`).
- `str_split` stops at its own assertion for some strings; `StrSplit.PlacesFit` says exactly for which.

## Model

| member | source | states |
|---|---|---|
| Promises.Qos2AtMostOnce | mqtt/mqtt.c:712-736 | in every state of every run, between two deliveries of a QoS 2 PUBLISH with one packet id the client accepted a PUBREL for that id (section 4.3.3 of MQTT 3.1.1) |
| Promises.Qos2DeliveredIff | mqtt/mqtt.c:720-738 | in every state of every run: while a delivery with its id has not been released, a QoS 2 PUBLISH is dropped without effect; any other is delivered if and only if no COMPLETE PUBREC with its id lingers in the queue, the client is not in error, and the four bytes of the PUBREC and its record fit, if need be after a clean |
| Witnesses.SecondPublishIsSwallowed | mqtt/mqtt.c:720-726 | a run of five states without error in which two PUBLISHes with one id are received with a PUBREL between them, and the second is not delivered |
| Delivery.CompleteGuards | mqtt/mqtt.c:772-783 | completing the one PUBREC with an id takes away the guard of that id and of no other |
| Runs.DeliverCore | mqtt/mqtt.c:720-738 | a new PUBREC and the delivery it guards come together: PUBRECs that are not COMPLETE stay exactly those of the unreleased deliveries |
| Receipts.EventsComeFromPackets | mqtt/mqtt.c:712-738 | over every run, deliveries and releases are those of packets received, in order, none from one packet twice, and every PUBLISH at QoS 0 is delivered |
| Receipts.DeliveriesHaveReceipts | mqtt/mqtt.c:714-738 | over every run, the PUBACKs and PUBRECs registered are one for one, in order and with their ids, those that the deliveries at QoS 1 and 2 call for |
| Promises.EveryCallIsPossible | mqtt/mqtt.c:211-613 | from every state of every run every legal call is possible and extends the run |
| Promises.AcceptedIsNotLost | mqtt/mqtt.c:185-208 | over every run, the packet of a call that returned OK is registered next, a broker reads in it exactly what the call asked for, and ever after it is queued with its type, id and bytes (up to DUP) or was finished for a cause as in `Promises.NoLoss` |
| Calls.CallOutcome | mqtt/mqtt.c:185-471 | every call in any state: in error it reports that error; with unsound arguments it reports what is wrong with them; otherwise it registers a packet in which a broker reads what was asked for (all CONNECT fields, topic and maximum QoS, topic, payload and flags), if packet and record fit, if need be after a clean, or else the buffer is full; ids drawn are the first free ones and the register stays there |
| Obligations.DueIsSent | mqtt/mqtt.c:487-541 | in every state of every run: a send that returns OK sends every message that is UNSENT, or AWAITING_ACK with the clock past its time plus the response timeout, and is no QoS 2 PUBLISH behind another that is not COMPLETE; once, with its bytes, in queue order; nothing else; and the timeout counter grows by exactly the number of late ones |
| Sending.SendExactly | mqtt/mqtt.c:473-613 | in any state, with any clock and network: the loop with its carried flag and counters, its end at a failing write, the new states, times and DUP bits, the keep-alive check and the ping come to a closed form over the queue as it was |
| Obligations.SendRegisters | mqtt/mqtt.c:598-609 | a send registers a ping, and nothing but a ping, exactly if nothing has gone out for three quarters of the keep-alive interval; or it reports why it cannot |
| Obligations.IntervalsAsAsked | mqtt/mqtt.c:226-230 | over every call, the keep-alive interval is the one last given to connect and the response timeout the one last set |
| Handling.HandledByTable | mqtt/mqtt.c:687-849 | in any state, handling a packet is what a table of nine packet types says: a repetition is dropped, an acknowledgement of nothing is an error, otherwise the first record of the acknowledged type (with the id, or not COMPLETE) is completed, a refusal is reported, the reply is staged in its four bytes, and a PUBLISH is delivered once its reply is staged |
| Handshakes.PubrecIsAnswered | mqtt/mqtt.c:749-772 | in every state of every run, a PUBREC for a queued PUBLISH whose PUBREL is not queued completes that PUBLISH and registers the PUBREL with its id, unless the client is in error or out of room, and then says which |
| Handshakes.HandshakesGoOn | mqtt/mqtt.c:749-790 | over every run without error, a QoS 2 PUBLISH that is COMPLETE or gone has its PUBREL registered behind it, or was acknowledged by a PUBACK; and a PUBREC that is COMPLETE or gone has its PUBCOMP |
| Replies.RunAnswers | mqtt/mqtt.c:712-790 | over every run, every PUBACK, PUBREC, PUBREL and PUBCOMP registered is, in type, id and bytes, the reply that the packet handled just before it calls for, and no packet is replied to twice |
| Handshakes.RefusalIsHeeded | mqtt/mqtt.c:689-711 | a CONNACK or SUBACK that finds its request completes it and ends in OK exactly if the broker accepts: code 0, or a first code other than 128; code 2 is a refused client id, any other a refused connection |
| Obligations.RecvEnds | mqtt/mqtt.c:615-656 | a receive ends in OK exactly with the socket empty and an undecided, not full buffer; otherwise with an error that it leaves in the client, for one of five reasons; a failed read ends it at once; it sends nothing and changes no times |
| Promises.NoLoss | mqtt/mqtt.c:473-596 | over every run, a registered message is still queued with its type, id and bytes (up to DUP), unless it was sent and needs no acknowledgement, or an acknowledgement of its type and id was received after it was registered |
| Promises.CompleteWasSent | mqtt/mqtt.c:1651-1663 | over every run without timeouts in which no state has a request acknowledged more often than sent, a message that is COMPLETE or gone was sent |
| Early.UnsentIsOverAcked | mqtt/mqtt.c:1651-1663 | without timeouts, if an acknowledgement refers to a record that was never sent, some request has been acknowledged more often than sent |
| Witnesses.LatePing | mqtt/mqtt.c:1651-1663 | a run with a timeout, and no request acknowledged more often than sent, in which a ping is completed that was never sent |
| Witnesses.OverAckedPing | mqtt/mqtt.c:1651-1663 | a run without timeouts in which one PINGRESP too many completes a ping that was never sent |
| Promises.OnlyForward | include/mqtt.h:902-906 | over every run, a message only moves along UNSENT, AWAITING_ACK, COMPLETE, gone; registrations, transmissions and deliveries are never revised |
| Promises.CompleteNeverSent | mqtt/mqtt.c:487-520 | a message that is COMPLETE in some state of a run is not sent in any later one |
| Promises.TransmissionsAreTrue | mqtt/mqtt.c:571-579 | over every run, whatever is sent is the registered bytes; a QoS 1 PUBLISH after its first transmission carries DUP and differs in that bit only (section 3.3.1.1) |
| Promises.FirstSentInOrder | mqtt/mqtt.c:487-524 | over every run, first transmissions follow the order of registration, those of QoS 2 PUBLISHes among themselves and those of all other packets among themselves |
| Promises.Qos2SentInTurn | mqtt/mqtt.c:506-518 | over every run, once a QoS 2 PUBLISH has been sent, every one registered before it is COMPLETE or gone |
| Promises.FailedSendIsLast | mqtt/mqtt.c:522-529 | once a send has failed midway nothing more is sent and the error stays |
| Promises.WireIsPackets | mqtt/mqtt.c:522-541 | over every run, the bytes sent whole, cut where their fixed headers say, are exactly the images sent, in order |
| Promises.AcksAreUnambiguous | mqtt/mqtt.c:1651-1663 | over every run, at most one record of a type that draws an id, and at most one PUBREC and one PUBREL, matches an id, and the search finds it (section 2.3.1) |
| Promises.IdsAreDistinct | mqtt/mqtt.c:64-90 | over every run, no two queued PUBLISHes, SUBSCRIBEs and UNSUBSCRIBEs share a packet id, and no two PUBRECs or two PUBRELs do (section 2.3.1) |
| Promises.OneQos2InFlight | mqtt/mqtt.c:506-518 | over every run, at most one QoS 2 PUBLISH awaits its acknowledgement, and it is the first QoS 2 PUBLISH in the queue that is not COMPLETE |
| Promises.UnknownAckIsNotOurs | mqtt/mqtt.c:688-849 | over every run, the error of an unknown acknowledgement implies that a response had timed out or that some request was acknowledged more often than sent |
| Broker.NoUnknownAck | mqtt/mqtt.c:688-849 | in no state of a joint run with a broker that answers each request at most once, at any time and in any order, over ordered streams, does a client that saw no timeout meet an unknown acknowledgement, for all request types |
| Broker.CompleteWasSent | mqtt/mqtt.c:1651-1663 | in every such state whatever is COMPLETE or has left the queue was sent |
| Broker.DispatchedIsPrefix | mqtt/mqtt.c:622-656 | in every state of a joint run, what the client has dispatched is a prefix of what the broker sent, packet for packet |
| Broker.AllDispatched | mqtt/mqtt.c:622-656 | when all of the broker's bytes have arrived and a receive found no more to do, everything the broker sent has been dispatched and the buffer is empty |
| Promises.ReceiveIsOneShot | mqtt/mqtt.c:615-858 | over every run, parsing all bytes ever received at once gives the packets dispatched, followed by what parsing the buffered rest gives |
| Promises.ChunkingIsIrrelevant | mqtt/mqtt.c:615-858 | two runs that received the same bytes, however cut into reads and with whatever buffers, dispatched the same packets and hold the same rest |
| Promises.RecvOkIsIdle | mqtt/mqtt.c:622-656 | a receive that returns OK has emptied the socket and left no complete packet in the buffer |
| Promises.TooSmallMeansLonger | mqtt/mqtt.c:642-652 | the error "receive buffer too small" is raised only if the packet at the front, whatever its remaining bytes, is longer than the buffer |
| Runs.RunInvariant | mqtt/mqtt.c:35-62 | the invariants of queue, ids, deliveries, acknowledgements and stream hold in every state of every run |
| Runs.ApplyKeeps | mqtt/mqtt.c:211-613 | each call, from any state with the invariants, leads to a state with them |
| Progress.RunForward | mqtt/mqtt.c:473-860 | between any two states of a run the history only grows, no message moves back, nothing COMPLETE is sent, and a dead connection stays silent |
| Ledger.CleanKeeps | mqtt/mqtt.c:1605-1649 | a clean keeps the account of queue and history: only messages completed for cause leave, the others keep their place in it |
| Ledger.TransmitKeeps | mqtt/mqtt.c:522-596 | a transmission keeps the account: true copies only, first transmissions in order |
| Discipline.AppendDiscipline | mqtt/mqtt.c:249-281 | a message whose id is free, or whose reply is not yet queued, keeps all acknowledgement lookups unambiguous |
| Discipline.TransmitDiscipline | mqtt/mqtt.c:506-518 | a transmission that the send loop allows keeps at most one QoS 2 PUBLISH in flight, first in line |
| Delivery.EventKeeps | mqtt/mqtt.c:720-738 | a release, or a delivery whose id has no unreleased delivery, keeps delivery at most once |
| Balance.CompleteBalance | mqtt/mqtt.c:688-849 | completing the record that an acknowledgement refers to keeps, for every request, transmissions at most acknowledgements plus records awaiting one |
| PacketIds.NextPidIsFree | mqtt/mqtt.c:64-90 | with fewer than 65535 messages queued the id drawn is not zero and no queued message carries it |
| PacketIds.SearchFinds | mqtt/mqtt.c:70-88 | from any nonzero register value, at most one step more than there are messages reaches a free id |
| PacketIds.NextPidIsFirst | mqtt/mqtt.c:64-90 | the id drawn is the first that no queued message carries on the register's way from where it stood, or from 163 if it was zero |
| Lfsr.StepBranches | mqtt/mqtt.c:72-76 | the step is a right shift, with the taps applied exactly if a one was shifted out |
| Lfsr.StepInjective | mqtt/mqtt.c:72-76 | no two register values have the same successor, and only zero steps to zero |
| Lfsr.StepSurjective | mqtt/mqtt.c:72-76 | every register value is a successor |
| Lfsr.FullPeriod | tests.c:602-613 | from every nonzero value the register returns to it after exactly 65535 steps, and not earlier |
| Lfsr.DistinctStates | tests.c:602-613 | the 65535 values along the cycle are pairwise distinct |
| FixedHeader.HeaderRoundTrip | mqtt/mqtt.c:956-1066 | every legal header with a remaining length below 2^28, followed by at least that many bytes, unpacks to itself and to its own size |
| FixedHeader.HeaderSize | mqtt/mqtt.c:1014-1066 | a packed header has two to five bytes, and for each size the lengths that fit are exactly those below the power of 128 (section 2.2.3) |
| FixedHeader.HeaderStable | mqtt/mqtt.c:956-1012 | a decided result on a prefix is the result on every extension |
| FixedHeader.HeaderExactly | mqtt/mqtt.c:956-1012 | what the unpacker makes of any bytes: four length bytes that all announce another are refused, a cut run waits, and behind a whole run the rules on type and flags refuse, the body is waited for, or the header is read with the value of its digits |
| FixedHeader.HeaderLocal | mqtt/mqtt.c:956-1012 | a decoded header depends on no byte behind the body that it announces |
| FixedHeader.PackThenUnpack | mqtt/mqtt.c:956-1066 | the packer succeeds exactly if the rules on type and flags hold, the length is below 2^28 and header and body fit the room; then its output is read back and its result is the byte count, and otherwise its code says which of these fails |
| FixedHeader.PackFixedHeader | mqtt/mqtt.c:1014-1066 | the loop writes the encoding and nothing outside its room, and fails exactly for a broken rule, a length of 2^28 or more, or too little room |
| FixedHeader.UnpackFixedHeader | mqtt/mqtt.c:956-1012 | the loop computes the decoded header, waits or rejects as specified |
| Wire.StrRoundTrip | mqtt/mqtt.c:1723-1736 | a length-prefixed string followed by anything is read back, with the rest |
| Packets.PackConnectionRequest | mqtt/mqtt.c:1069-1188 | writes the image of the request or fails with the code of the first missing or forbidden field, 0 exactly if it does not fit, and touches nothing outside its room |
| Packets.ConnectAccepted | mqtt/mqtt.c:1090-1118 | exactly the requests with a client id or a clean session, and with a will its message and a QoS below 3, are packed; the first fault in that order is reported |
| Packets.PackPublishRequest | mqtt/mqtt.c:1237-1304 | the same as for CONNECT |
| Packets.PublishAccepted | mqtt/mqtt.c:1250-1277 | exactly a PUBLISH with a topic and a QoS below 3 is packed; a missing topic and QoS 3 have their own errors |
| Packets.PackPubxxxRequest | mqtt/mqtt.c:1351-1383 | the same for PUBACK, PUBREC, PUBREL and PUBCOMP |
| Packets.PackBare | mqtt/mqtt.c:1219-1234 | the same for DISCONNECT and PINGREQ |
| Packets.PackSubscribeRequest | mqtt/mqtt.c:1437-1499 | the same for SUBSCRIBE, with its two loops over the topics |
| Packets.PackUnsubscribeRequest | mqtt/mqtt.c:1518-1575 | the same for UNSUBSCRIBE |
| Packets.TopicLimit | mqtt/mqtt.c:1458-1461 | whatever the room, both packers refuse a list for its length if and only if it has eight topics or more |
| Packets.EightTopicsRefused | include/mqtt.h:796-803 | a list of the documented maximum of eight topics is refused by both packers |
| Decoders.ConnectRoundTrip | mqtt/mqtt.c:1069-1188 | every sound request is packed, and a decoder written from section 3.1 recovers every field of it |
| Decoders.ConnectFlagBits | mqtt/mqtt.c:1088-1141 | the connect flags, bit by bit, say exactly which payload fields follow, and the session and will settings |
| Decoders.PublishDecoded | mqtt/mqtt.c:1237-1304 | every PUBLISH with a topic and a QoS below 3, however short, is packed, and a decoder written from section 3.3 recovers topic, id, payload and flags |
| Decoders.SubscribeRoundTrip | mqtt/mqtt.c:1437-1499 | every list of up to seven topics is packed, and a decoder written from section 3.8 recovers packet id, topic filters and QoS in order |
| Decoders.UnsubscribeRoundTrip | mqtt/mqtt.c:1518-1575 | every list of up to seven topics is packed, and a decoder written from section 3.10 recovers packet id and topic filters in order |
| Responses.UnpackResponse | mqtt/mqtt.c:1667-1706 | the unpacker computes the specified response and byte count |
| Responses.UnpackStable | mqtt/mqtt.c:1667-1706 | a decided result on a prefix is the result on every extension |
| Responses.UndecidedIsShort | mqtt/mqtt.c:1667-1706 | if nothing can be unpacked yet, the packet at the front ends behind the bytes held |
| Responses.ReadExactly | mqtt/mqtt.c:1667-1706 | what the unpacker makes of any bytes at all: it waits or refuses as the header says, refuses a body with the error of its fault, and otherwise reads a packet if and only if that packet encodes to these flags and this body, and consumes it whole; of a PINGRESP the header only |
| Responses.BodyExactly | mqtt/mqtt.c:1191-1435 | a body is refused exactly for its fault, by type and length and by the CONNACK bytes, and read as the one packet that encodes to it |
| Responses.ResponseRoundTrip | mqtt/mqtt.c:1667-1706 | every packet a broker may send is read back whole, whatever follows, exactly if it is not a PUBLISH with fewer than four bytes of body |
| Responses.PublishRoundTrip | mqtt/mqtt.c:1237-1348 | whatever has a topic and a QoS below 3 is packed and read back: topic, id, payload, QoS, retain and DUP, with DUP forced to 0 at QoS 0, consuming exactly its length |
| Responses.ShortPublishRejected | mqtt/mqtt.c:1321-1324 | a legal PUBLISH, one topic letter and no payload, is rejected |
| QueueSpec.RepresentsDrop | mqtt/mqtt.c:1605-1649 | bytes moved to the front, records moved to the back and starts rebased represent the queue without its first messages |
| MessageQueue.MessageQueue.Layout | include/mqtt.h:1054-1066 | packets tile the front of the buffer in order, records fill its back, the two do not overlap, and the room offered is exactly what is left when one more record is counted |
| Staging.FitsExactly | include/mqtt.h:1060-1066 | a packet is taken if and only if the queued bytes, the packet, and a record for each of them fit the buffer |
| MessageQueue.MessageQueue.RoomFits | include/mqtt.h:1060-1066 | the room offered to a packer always leaves space for one more record |
| MessageQueue.MessageQueue.PackingIsSafe | mqtt/mqtt.c:185-208 | packing into the offered room disturbs no queued message |
| MessageQueue.MessageQueue.constructor | mqtt/mqtt.c:1578-1588 | a new queue is empty, with all of the buffer but one record as room |
| MessageQueue.MessageQueue.Register | mqtt/mqtt.c:1590-1603 | appends the packed bytes as an UNSENT message and leaves the others |
| MessageQueue.MessageQueue.Clean | mqtt/mqtt.c:1605-1649 | drops exactly the longest COMPLETE prefix; survivors keep order, state, type, id and bytes through both moves and the rebasing loop |
| MessageQueue.MessageQueue.Find | mqtt/mqtt.c:1651-1665 | with an id, the first message of the type that carries it, in whatever state; without one, the first of the type that is not COMPLETE; or none |
| MessageQueue.MessageQueue.MarkDup | mqtt/mqtt.c:578-579 | sets DUP in one stored packet and changes no other byte |
| Client.Client.NextPid | mqtt/mqtt.c:64-90 | the loop terminates with the id that the search finds: nonzero and on no queued message |
| Client.Client.TryPack | mqtt/mqtt.c:185-208 | pack, clean and pack again, register: computes the staged state, all error paths included |
| Client.Client.Connect | mqtt/mqtt.c:211-247 | refines `Session.Connect`, the step that the run theorems are about: the whole new state, queue and buffers included, and the result |
| Client.Client.Publish | mqtt/mqtt.c:249-281 | refines `Session.PublishCall`: a fresh id, and the PUBLISH staged under it or the error |
| Client.Client.Subscribe | mqtt/mqtt.c:367-395 | refines `Session.Subscribe`: a fresh id, and the SUBSCRIBE staged under it or the error |
| Client.Client.Unsubscribe | mqtt/mqtt.c:397-422 | refines `Session.Unsubscribe`: a fresh id, and the UNSUBSCRIBE staged under it or the error |
| Client.Client.Disconnect | mqtt/mqtt.c:452-471 | refines `Session.Disconnect` |
| Client.Client.Send | mqtt/mqtt.c:473-613 | refines `Session.Send`: the loop over the queue, with timeouts, the QoS 2 rule, new states and DUP bits in the buffer, and the keep-alive ping |
| Client.Client.HandleResponse | mqtt/mqtt.c:687-849 | refines `Session.Handle`: which record is completed, which reply is staged, what is delivered, and every error |
| Client.Client.Recv | mqtt/mqtt.c:615-863 | refines `Session.Recv`: reads, parses, handles and compacts the receive buffer until there is no more or an error |
| Client.Client.Sync | mqtt/mqtt.c:35-62 | receive, then send, unless receiving failed |
| SsdpRoundTrip.MSearchRoundTrip | lssdp/lssdp.c:405-416 | a printed search parses to M-SEARCH with its search target and no other field |
| SsdpRoundTrip.NotifyRoundTrip | lssdp/lssdp.c:468-489 | a printed notification parses to NOTIFY with search target, USN, location, sm_id and device type; a location over 255 characters is cut to 255 |
| SsdpRoundTrip.ResponseRoundTrip | lssdp/lssdp.c:655-675 | the same for a printed response |
| SsdpRoundTrip.ScanTakesLines | lssdp/lssdp.c:726-732 | the scan takes any text line by line; an empty line ends nothing, and what is behind the last end of line is not read |
| SsdpRoundTrip.PartsExactly | lssdp/lssdp.c:747-784 | any line is cut at its first colon, and counts only if something visible is on both sides of it |
| SsdpRoundTrip.TrimExactly | lssdp/lssdp.c:832-847 | trimming takes away all of the invisible characters at both ends and nothing else |
| SsdpRoundTrip.FieldOfExactly | lssdp/lssdp.c:787-816 | a name stands for a field exactly if it is one of the field's names in any mixture of upper and lower case |
| SsdpRoundTrip.SecondValueOverlays | lssdp/lssdp.c:787-816 | a field that two lines name holds the second value, followed by the end of the first if that is longer |
| SsdpRoundTrip.MethodExactly | lssdp/lssdp.c:714-725 | a text is of a method exactly if it is a C string that goes on behind the method's first line |
| SsdpRoundTrip.FoldOnly | lssdp/lssdp.c:787-816 | a field that one line names gets that line's value, cut to its array, and is otherwise left |
| Ssdp.ParsePacket | lssdp/lssdp.c:697-745 | the scan recognises the method or refuses, and leaves in the packet's arrays what the lines say |
| Ssdp.ParseFieldLine | lssdp/lssdp.c:747-820 | splits at the first colon, trims both sides, and copies into the named field, cut to leave the terminator |
| Ssdp.TrimSpaces | lssdp/lssdp.c:832-847 | narrows to the text without invisible characters at both ends, or fails exactly if nothing is left |
| Ssdp.GetColonIndex | lssdp/lssdp.c:822-830 | the first colon in the range, or -1 if there is none |
| Neighbors.ListIsLastHeard | lssdp/lssdp.c:875-966 | over every run, the list holds for each location exactly its last announcement, until that is too old at a check or all is removed |
| Neighbors.RunDistinct | lssdp/lssdp.c:875-966 | over every run, no two entries have the same location |
| Neighbors.FiresExactly | lssdp/lssdp.c:941-945 | the changed-callback is due if and only if an entry came, went, or changed in more than its time |
| Neighbors.ExpiredExactly | lssdp/lssdp.c:505-554 | the check keeps an entry if and only if the clock less its time is below the timeout, and every entry if the timeout is not positive or the clock cannot be read |
| Neighbors.ExpiredSplits | lssdp/lssdp.c:505-554 | the check works on each stretch of the list by itself, so order is kept |
| NeighborList.List.Add | lssdp/lssdp.c:875-948 | on the heap: updates the node with the location in place, or links a new one at the end, or fails for want of memory; calls back as due; the list stays acyclic and owns all live nodes |
| NeighborList.List.CheckTimeout | lssdp/lssdp.c:505-554 | on the heap: unlinks and frees exactly the stale nodes, keeps the others in order, calls back as due |
| NeighborList.List.RemoveAll | lssdp/lssdp.c:950-973 | on the heap: frees every node and calls back exactly if there was one |
| NeighborList.ExpiredDone | lssdp/lssdp.c:524-553 | a list with the same survivors and nothing stale is what the check leaves, and it is shorter exactly if something was stale |
| StrSplit.PlacesFit | src/parse.h:27-42 | the count made in advance always has room for the tokens and the final NULL, and is exact if and only if the string is not empty, does not begin with a delimiter and has no two in a row |
| StrSplit.TokensCompose | src/parse.h:49-59 | the tokens of any string: none of the empty one, itself of one without a delimiter, and of two strings with a delimiter between them those of both in order |
| StrSplit.JoinAfterSplit | src/parse.h:49-59 | the tokens of such a string, joined, are the string but for a delimiter at its end |
| StrSplit.SplitAfterJoin | src/parse.h:49-59 | nonempty tokens without delimiters, joined, split into themselves, and the assertion holds |
| StrSplit.EmptyMisses | src/parse.h:37-58 | the empty string fails the final assertion |
| StrSplit.CountPlaces | src/parse.h:27-42 | the counting loop and its two corrections compute the number of places |
| StrSplit.Strtok | src/parse.h:50-57 | one `strtok` call takes the next token and overwrites the delimiter behind it, and no other character |
| StrSplit.StrSplit | src/parse.h:16-63 | returns the tokens exactly for a tight string, and otherwise stops at the final assertion; the assertion inside the loop never fails |

## Left out

- Client.Client.Send: a send takes a packet whole or fails, as in `mqtt/mqtt_pal.c:130-140`; partial sends, `send_offset` and the TLS back ends are not modelled.
- Client.Client.Recv: a failed read loses no byte, while `mqtt_pal_recvall` drops what it had read before a later read fails; a client that is called again after such an error may read its stream out of step.
- Client.Client.Sync: the reconnect callback and the inspector callback are not modelled, nor is `mqtt_reinit` inside a run.
- Threads: every public call is one atomic step; `mqtt_unsubscribe` draws its id before it takes the lock, so atomicity is an assumption there.
- `typical_response_time`, `mqtt_error_str` and NULL buffers; the timestamp of a record that awaits nothing.
- Packets.PackConnectionRequest: fields over 65535 bytes are excluded; the C code writes a truncated length there, and a packet shorter than its header says.
- Packets.PackPublishRequest: topics over 65533 and payloads over 65535 bytes are excluded; the 16-bit casts truncate the remaining length there.
- Packets.PackSubscribeRequest: topic filters over 65535 bytes are excluded, as in CONNECT.
- Packets.PackUnsubscribeRequest: topic filters over 65535 bytes are excluded, as in CONNECT.
- Client.Client.Connect: excludes the lengths that its packer excludes.
- Client.Client.Publish: excludes the lengths that its packer excludes, and 65535 or more queued messages, where the search for an id would not end.
- Client.Client.Subscribe: excludes the lengths that its packer excludes, and 65535 or more queued messages.
- Client.Client.Unsubscribe: excludes the lengths that its packer excludes, and 65535 or more queued messages.
- A PUBLISH whose topic length exceeds its remaining length: the C code reads outside the packet, and the model ends the call with an error of its own.
- Broker.NoUnknownAck: assumes that no response has timed out, because after a retransmission a second acknowledgement is legitimate and the client may no longer know it.
- Liveness: nothing says that a send succeeds or that an acknowledgement comes; what a send that succeeds has sent is `Obligations.DueIsSent`.
- Sending.SendExactly: covers records of the types that the client stages; the default branch of the loop, for any other type, is reached in no run.
- The socket and interface code of `lssdp/lssdp.c`, its logging and the callbacks' own effects on the context.
- The narrowing of `long long` ages to `long` where `long` has 32 bits, and a failing `strdup`.
- The smart-home programs in `src/`, `old/`, `cli_example/` and the build files: device tables, printing and sleeps.
