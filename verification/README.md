# eibd protocol machines in Dafny

eibd carries KNX frames between local clients, serial interfaces and KNXnet/IP peers. This project models its
protocol machines, its small codecs and the table builders of the BCU SDK, and proves what they promise over all
inputs, all runs and all reachable states.

| files | component |
|---|---|
| `TunnelClient`, `TunnelServer` | both ends of a KNXnet/IP tunnel: step functions on values, and the classes whose methods refine them |
| `TunnelLink`, `TunnelWire`, `TunnelSystem`, `TunnelTheorems`, `TunnelTransport`, `TunnelDelivery`, `TunnelGiveUp` | the two ends joined by channels that lose and duplicate; unbounded counters; the theorems over all runs |
| `EibNetIp`, `Emi`, `Lpdu`, `Tpdu`, `Apdu` | datagrams, cEMI frames, the frames of the bus, transport PDUs, group value PDUs |
| `TConnection`, `TConnectionPair` | the connection-oriented transport, alone and against a peer with the same rules |
| `Streaming`, `Ft12`, `Tpuart`, `AddressTables` | byte-level receivers of the serial drivers, with what they send in between, and the drivers' address tables |
| `UpdateRing`, `GroupCache` | the group cache and its ring of recent updates |
| `Layer3` | registrations, dispatch and the repeat filter |
| `AddrTab` | the address and association tables of a device |
| `Tlv`, `Image`, `LoadImage` | the BCU image codec and the load requests |
| `Bytes` | bytes, words, flattening |

## How the model is built

An event loop is modelled twice: as step functions on a value that holds the loop's variables and the object's
fields, and as a class whose methods have the loop's branches and are proved to compute those functions. Theorems
over runs are about the functions. Waiting is an event: packet arrival, timers, loss and duplication are chosen
freely, a semaphore is a counter. Histories (frames submitted, accepted, acknowledged) are logs that no step
reads. Bytes are integers below 256, masks and shifts are written with `/` and `%`, and every 4-, 8- and 16-bit
wrap-around is explicit.

For the tunnel the main argument has three layers. `TunnelLink` is stop-and-wait with unbounded counters, a sender
that may give a frame up without advancing its number, and FIFO channels; its invariant bounds what can be in
flight. `TunnelWire` relates it to the 8-bit numbers and packets. `TunnelSystem` shows that each turn of either
real event loop is a sequence of `TunnelLink` steps in both directions at once.

Where the code does something that is easy to read otherwise, the model follows the code, and where it does not do
what it is for, a lemma names the input and another the exact condition:

- The cEMI encoder and decoder exchange normal and urgent priority (`Emi.RoundTrip`).
- The tunnel client adds 0x100 to a sequence number that is a byte, so the addition has no effect.
- After a give-up in the tunnel the number stays, so an acknowledgement can release a frame that the other end never
  accepts (`TunnelGiveUp.AcknowledgedNotAccepted`). The client knows that it does not exactly while its drop counter
  is 0 (`TunnelTheorems.AcknowledgementMeaning`, `TunnelGiveUp.DropDecides`).
- The FT1.2 receiver deletes `len` bytes after a repeated frame, but does not assign `len` on that path. If the
  variable keeps its last value, the loop does what it is meant to exactly when each repeated frame finds its own
  length there (`Ft12.WrittenExactly`), which is always so with a peer that repeats frames (`Ft12.ExactlyOnce`); if
  it can hold anything, frames arrive for certain exactly when none is repeated (`Ft12.AnyLengthExactly`). With 0 in
  it, a frame that counts as repeated ends reception for good (`Ft12.ZeroEndsReception`; input, from reset:
  `Ft12.ResetThenZero`).
- A TPUART telegram that was acknowledged and then timed out can leave the acknowledgement flag set, and the next
  data telegram is then not acknowledged (input: `Tpuart.TimeoutLeavesFlag`; exactly which leftovers do that:
  `Tpuart.TimeoutExactly`).
- The TPUART driver does not reset its retry count when it drops a frame after three timeouts, so the next frame is
  dropped at its first timeout (`Tpuart.NextUnheard`; exactly when: `Tpuart.DroppedBySilence`).
- The parser of a list parameter scans beyond its bytes exactly when it counts more strings than it has
  (`Image.InitList`; input: `Image.CountTooLarge`).
- `BuildAddrTable` writes outside its arrays exactly when an object that sends has an index that is not below the
  number of associations (`AddrTab.AddrTable.BuildAddrTable`, `AddrTab.NotAlwaysInRange`).
- The image parser never gets to the end of more than 65535 bytes (`Tlv.NeverAtEnd`, `Image.ReadExactly`), and there
  are images of 65546 bytes on which it does not end at all (`Image.EndlessImage`).
- The checks of a BCU2 image bound the memory segments neither by the code nor from below. Every memory write of the
  load requests stays in the segment it allocates exactly when the association table and the text are not empty, and
  takes only bytes of the code exactly when the written segments also lie between its ends
  (`LoadImage.WritesExactly`; inputs: `LoadImage.EmptyText`, `LoadImage.EmptyAssociations`, `LoadImage.LongText`).
- A program of exactly 0x18 bytes is accepted, but has no byte 0x18 to take the address from
  (`LoadImage.AddressExactly`, `LoadImage.SmallImageLoadable`).

## Model

| member | source | states |
|---|---|---|
| TunnelTheorems.TunnelSafety | eibd/backend/eibnettunnel.cpp:334-388 | in every reachable state of both ends, in both directions: the accepted frames are the submitted frames at strictly increasing positions (in order, none twice), a frame is passed over only if one was given up, and accepted = acknowledged or acknowledged + 1, across wraps, losses, copies and give-ups |
| TunnelTheorems.TunnelAgreement | eibd/backend/eibnettunnel.cpp:438-485 | if the sender gave nothing up, the accepted frames are a prefix of the submitted ones, at most one longer than what is acknowledged, and layer 3 of the server got exactly what that prefix carries, in order |
| TunnelTheorems.TunnelInFlight | eibd/libserver/eibnetserver.cpp:514-557 | every request and acknowledgement in flight carries the number of the current slot or of the one before, counted unbounded |
| TunnelTheorems.NoSequenceErrors | eibd/libserver/eibnetserver.cpp:514-525 | the oldest request in flight has the receiver's number or the one before, so the disconnection for a wrong number never happens in a session |
| TunnelTheorems.AcknowledgementMeaning | eibd/backend/eibnettunnel.cpp:454-482 | in every reachable state, in both directions: an acknowledgement that releases a frame proves that the last frame accepted at the other end is that frame or one given up since the previous acknowledgement; with none given up, which the client's drop counter says, it is that frame |
| TunnelGiveUp.DropDecides | eibd/backend/eibnettunnel.cpp:576-598 | with the drop counter at 1 or 2 it need not be, and the client cannot tell: two runs lead to the same client and the same acknowledgement, the head being accepted in the one and not in the other |
| TunnelTheorems.TunnelBookkeeping | eibd/backend/eibnettunnel.cpp:576-598 | submitted = removed ++ queued at both ends; a waiting end last sent its head under its current number; at most 4 transmissions of a frame by the client and 10 by the server |
| TunnelDelivery.ServerLayer3 | eibd/libserver/eibnetserver.cpp:519-549 | after any run, in frames: layer 3 of the server has got what frames submitted at the client carry, those with hops left, one hop on, normal and urgent exchanged, the repeat flag cleared; in order, none twice, all acknowledged ones and at most one more; the first ones if the client gave none up |
| TunnelDelivery.ClientLayer3 | eibd/backend/eibnettunnel.cpp:388-437 | after any run, the outqueue of the client has got its own frames looped back, merged with what frames queued at the server carry, normal and urgent exchanged, in order, none twice; the first ones if the server gave none up; confirmations show nothing |
| TunnelTransport.WireTransparent | eibd/libserver/eibnetip.cpp:238-271 | in every reachable state each request and acknowledgement in flight is the same packet after ToPacket, fromPacket and the parser, and is not taken for the other kind |
| TunnelGiveUp.AcknowledgedNotAccepted | eibd/backend/eibnettunnel.cpp:576-598 | a concrete run for any two frames: the first is given up but accepted late, its acknowledgement releases the second, which the server never accepts |
| TunnelSystem.RunGood | eibd/backend/eibnettunnel.cpp:237-680 | every reachable state of the two real loops and four channels is related, in both directions, to a state of the unbounded protocol that satisfies its invariant |
| TunnelSystem.PhaseKeeps | eibd/libserver/eibnetserver.cpp:489-602 | each phase of a turn of either end (read a request, an acknowledgement or a control packet, a timer, a transmission, loss, copy) keeps that relation |
| TunnelLink.ReceiveRequestKeeps | eibd/backend/eibnettunnel.cpp:351-388 | reading the oldest request keeps the window invariant, and its slot is the next one or the last accepted one |
| TunnelLink.ReceiveAckKeeps | eibd/backend/eibnettunnel.cpp:454-482 | reading the oldest acknowledgement keeps the window invariant, and its slot is the current one or the one before |
| TunnelLink.GiveUpKeeps | eibd/backend/eibnettunnel.cpp:580-586 | dropping the head without advancing the number keeps the window invariant |
| TunnelWire.RequestRel | eibd/libserver/eibnetserver.cpp:514-557 | the 8-bit comparison of a receiver with its expected number decides the same as the unbounded slots do |
| TunnelWire.AckRel | eibd/libserver/eibnetserver.cpp:575-601 | the 8-bit comparison of a sender decides the same as the unbounded slots do |
| TunnelClient.IterateKeepsOk | eibd/backend/eibnettunnel.cpp:334-666 | every turn of the client in a connected link-layer session, for every packet and timer, keeps: conserved queue, waiting head = last request under the current number, transmissions = retry + 1, drop counter = frames given up since the last acknowledgement |
| TunnelClient.RequestEffect | eibd/backend/eibnettunnel.cpp:334-388 | what a request with the expected or the previous number changes: the acknowledgement, the number, the accepted frame, and nothing of the sending side |
| TunnelClient.TimeoutEffect | eibd/backend/eibnettunnel.cpp:576-600 | the timer removes a frame only on the fourth timeout, and changes nothing that the other end can see except for control packets |
| TunnelClient.EIBNetIPTunnel.RunOnce | eibd/backend/eibnettunnel.cpp:334-666 | one turn of the loop in a connected link-layer session computes Iterate, with the semaphores equal to the queue lengths |
| TunnelClient.EIBNetIPTunnel.SendLData | eibd/backend/eibnettunnel.cpp:120-140 | the frame is queued as cEMI and looped back to the layer above, with a copy before it if there is a virtual busmonitor |
| TunnelClient.EIBNetIPTunnel.ReceiveRequest | eibd/backend/eibnettunnel.cpp:334-437 | TUNNEL_REQUEST: the branch structure computes OnRequest, with the copies for busmonitors |
| TunnelClient.EIBNetIPTunnel.ReceiveAck | eibd/backend/eibnettunnel.cpp:438-485 | TUNNEL_RESPONSE: computes OnAck, and says when the confirmation timer starts |
| TunnelClient.EIBNetIPTunnel.CheckTimeout | eibd/backend/eibnettunnel.cpp:576-600 | computes OnTimeout: retry, give up, disconnect on the third give-up in a row |
| TunnelClient.EIBNetIPTunnel.CheckHeartbeat | eibd/backend/eibnettunnel.cpp:601-627 | computes OnHeartbeat |
| TunnelClient.EIBNetIPTunnel.SendTop | eibd/backend/eibnettunnel.cpp:654-666 | computes SendHead: an idle client sends the head and waits |
| TunnelClient.Retransmission | eibd/backend/eibnettunnel.cpp:576-666 | while no packet comes: with n timeouts among any turns, n at most 3, exactly n + 1 copies of the request for the head have been sent, under one number, and it waits; the next timeout gives up exactly the head under an unchanged number, and sends the next frame, or goes idle, or ends the session if this was the third in a row |
| TunnelClient.Acknowledged | eibd/backend/eibnettunnel.cpp:438-485 | exactly the acknowledgement with the channel, number and status 0 releases the waiting head, advances the number, and lets the next frame go out, at once or after a confirmation; any other changes nothing |
| TunnelClient.Confirmed | eibd/backend/eibnettunnel.cpp:388-394 | a client that waits for a confirmation sends again with one or when the timer runs out, and with no other request |
| TunnelClient.OutOfSequence | eibd/backend/eibnettunnel.cpp:351-366 | a request with a wrong number is not acknowledged and delivers nothing, and ends the session if and only if its number is at least five above the expected one |
| TunnelClient.Heartbeats | eibd/backend/eibnettunnel.cpp:601-627 | n heartbeats without a response send n state requests, up to five; the sixth ends the session; a response makes room for one more |
| TunnelClient.EndedByServer | eibd/backend/eibnettunnel.cpp:486-575 | what the server's disconnect request, disconnect response and unknown-channel answer do, for this channel and any other |
| TunnelClient.Ended | eibd/backend/eibnettunnel.cpp:334-666 | an ended session stays ended whatever comes, delivers nothing, and sends nothing except to answer an unknown-channel state |
| TunnelServer.StepsKeepOk | eibd/libserver/eibnetserver.cpp:559-602 | acknowledgements and visits of the send loop keep: conserved queue, its semaphore equal to its length, state = transmissions of the head, head = last request under the current number, layer 3 got what was accepted |
| TunnelServer.RequestKeepsOk | eibd/libserver/eibnetserver.cpp:489-558 | so does every request |
| TunnelServer.RequestEffect | eibd/libserver/eibnetserver.cpp:506-558 | what a valid request on a type-0 channel changes, with at most one confirmation queued |
| TunnelServer.EIBnetServer.AddClient | eibd/libserver/eibnetserver.cpp:219-251 | terminates with the least number not in use, at most one more than there are connections; if it fits a byte a new connection with it is added, and channels stay distinct and non-zero |
| TunnelServer.LeastUnusedBound | eibd/libserver/eibnetserver.cpp:225-236 | if 1 to n - 1 are in use there are at least n - 1 connections |
| TunnelServer.EIBnetServer.Disconnect | eibd/libserver/eibnetserver.cpp:416-445 | exactly the connection with that channel goes; 0x21 if there is none |
| TunnelServer.EIBnetServer.GetLData | eibd/libserver/eibnetserver.cpp:144-198 | a frame with hops left that is not our own is routed, one hop on, if the server does that, and queued for every type-0 connection, whose semaphore keeps counting its queue |
| TunnelServer.TranslatedExactly | eibd/libserver/eibnetserver.cpp:164-182 | a frame to the server's own address is routed once for each of the sender's NAT entries, to that address, and in no other copy |
| TunnelServer.RoutedExactly | eibd/libserver/eibnetserver.cpp:157-189 | what is routed, with multiplicity: the copies for the sender's entries for a frame to address 0 whose sender has one, and otherwise the frame itself once |
| TunnelServer.EIBnetServer.AddNat | eibd/libserver/eibnetserver.cpp:253-271 | an entry for the two individual addresses is added unless it is there; the entries stay distinct |
| TunnelServer.EIBnetServer.ReceiveRequest | eibd/libserver/eibnetserver.cpp:489-558 | only the addressed connection changes, by OnRequest; false, if and only if the encoder of the confirmation would assert on the frame |
| TunnelServer.EIBnetServer.ReceiveAck | eibd/libserver/eibnetserver.cpp:559-602 | only the addressed connection changes, by OnAck |
| TunnelServer.EIBnetServer.SendLoop | eibd/libserver/eibnetserver.cpp:750-789 | every connection is visited once, by SendTurn, of which Retransmission says what any number of visits sends, keeps and gives up |
| TunnelServer.Retransmission | eibd/libserver/eibnetserver.cpp:750-789 | while no acknowledgement comes: with n expired timers among any visits after the first, n at most 9, exactly n + 1 copies of the request for the head have been sent, under one number, and the queue is unchanged; the tenth expired visit sends nothing and gives up exactly the head under an unchanged number; an acknowledgement at any time before releases it and advances the number, and one with another number changes nothing |
| TunnelServer.Confirms | eibd/libserver/eibnetserver.cpp:506-549 | a frame sent by a client under the expected number, through the encoder: layer 3 gets it one hop on, and for a request the client is queued a confirmation that decodes to its own frame, one hop on, with its own priority |
| TunnelServer.OtherNumbers | eibd/libserver/eibnetserver.cpp:514-525 | the last number again is acknowledged again, any other is ignored, and neither changes anything else |
| TunnelServer.Refused | eibd/libserver/eibnetserver.cpp:526-558 | what cannot be decoded, or comes on a channel that takes none, is answered with 0x29 and counted, and goes nowhere |
| EibNetIp.DatagramRoundTrip | eibd/libserver/eibnetip.cpp:238-271 | a packet survives ToPacket and fromPacket if and only if it fits the 16-bit length; otherwise nothing is read |
| EibNetIp.DatagramCanonical | eibd/libserver/eibnetip.cpp:238-255 | an accepted datagram is the encoding of what was read from it |
| EibNetIp.RequestRoundTrip | eibd/libserver/eibnetip.cpp:739-766 | a tunnel request survives if and only if it has two or more cEMI bytes and fits a datagram |
| EibNetIp.AckRoundTrip | eibd/libserver/eibnetip.cpp:775-801 | every acknowledgement survives and is never read as a request |
| EibNetIp.TunnelBytes | eibd/libserver/eibnetip.cpp:256-271 | both datagrams byte by byte: header, service, length, connection header |
| Emi.RoundTrip | eibd/libserver/emi.cpp:22-104 | every frame the encoder takes decodes to itself, with normal and urgent exchanged and, unless the code is 0x29, the repeat flag lost |
| Emi.SwapInvolution | eibd/libserver/emi.cpp:31-45 | the exchange is an involution that fixes exactly system and low priority |
| Emi.IndicationInjective | eibd/libserver/emi.cpp:22-64 | as an indication, the encoding determines the frame |
| Emi.DecodedEncodable | eibd/libserver/emi.cpp:66-104 | a decoded frame is accepted by the encoder if and only if its length byte is below 0xfe |
| Lpdu.RoundTrip | eibd/libserver/lpdu.cpp:214-358 | every frame of up to 255 bytes, standard or extended, is read from its bytes on the bus as itself, with a good checksum and normal and urgent exchanged |
| Lpdu.Injective | eibd/libserver/lpdu.cpp:290-358 | so its bytes on the bus determine the frame, as the repeat filter assumes |
| Lpdu.CemiIsOnBus | eibd/libserver/emi.cpp:22-64 | the cEMI indication of a frame is built of the bytes it has on the bus, control byte included |
| Tpdu.PacketRoundTrips | eibd/libserver/tpdu.cpp:130-148 | numbered data and acknowledgements decode to their number and payload |
| Tpdu.NackRoundTrips | eibd/libserver/tpdu.cpp:256-270 | so do negative acknowledgements |
| TConnectionPair.PrefixDelivery | eibd/libserver/layer4.cpp:516-573 | over channels that lose, duplicate and reorder, if no copy arrives 16 or more payloads late, what either end has delivered is a prefix of what the other submitted, and acknowledged <= delivered <= acknowledged + 1 |
| TConnectionPair.FifoPrefixDelivery | eibd/libserver/layer4.cpp:516-573 | over FIFO channels with any losses and copies the age bound holds by itself |
| TConnectionPair.SixteenLateIsNew | eibd/libserver/layer4.cpp:516-537 | a copy exactly 16 payloads late is delivered as new, in any open state |
| TConnectionPair.SixteenLateBreaks | eibd/libserver/layer4.cpp:516-573 | the bound is sharp for runs: a run in time, and one step more that is late by exactly 16, after which 17 payloads are delivered of 16 submitted |
| TConnectionPair.DataTurn | eibd/libserver/layer4.cpp:516-537 | a payload less than 16 late is delivered if next, acknowledged again if last, and closes the connection otherwise |
| TConnectionPair.ConfirmTurn | eibd/libserver/layer4.cpp:557-573 | an acknowledgement less than 16 late releases the waiting head it is for and closes the connection otherwise |
| TConnection.TransmissionBound | eibd/libserver/layer4.cpp:538-604 | over any run each payload goes out at most four times, always with one number and the same bytes |
| TConnection.Repetition | eibd/libserver/layer4.cpp:538-604 | from an idle connection with a payload: after n timeouts or negative acknowledgements in any mix, n at most 3, it is open and waiting with exactly n + 1 transmissions of that payload under one number; the fourth closes it with a disconnect and the terminator, and no earlier one does |
| TConnection.Closings | eibd/libserver/layer4.cpp:506-604 | every other way to close: a stop, a connect or disconnect request, a timeout of an idle connection, and any acknowledgement of either sign that is not for the waiting head |
| TConnection.Bookkeeping | eibd/libserver/layer4.cpp:492-613 | over any run the output is the delivered payloads and, once closed and only then, one empty terminator; mode 2 has a head; the queue is what was submitted and not acknowledged |
| TConnection.SilentPeerCloses | eibd/libserver/layer4.cpp:591-604 | with a silent peer the connection is closed after at most four timeouts |
| TConnection.Run | eibd/libserver/layer4.cpp:474-613 | every state of every run of one machine, in any surroundings, has its counters, queue, retry count and output in step |
| TConnection.IterateKeepsOk | eibd/libserver/layer4.cpp:492-613 | every turn keeps counters mod 16, the queue, the retry count and the output in step |
| TConnection.T_Connection.RunOnce | eibd/libserver/layer4.cpp:492-613 | one turn computes Iterate for the event that the loop chooses; the input semaphore is the queue length, one less in mode 2; Repetition and Closings say what such turns send and when they close |
| TConnection.T_Connection.Switch | eibd/libserver/layer4.cpp:507-576 | the switch on a received packet computes OnPacket, up to what follows the loop |
| TConnection.T_Connection.Send | eibd/libserver/layer4.cpp:378-384 | the payload joins the queue |
| TConnection.T_Connection.End | eibd/libserver/layer4.cpp:606-613 | the code after the loop: a disconnect, the deregistration and one empty terminator |
| Streaming.FeedIsDrive | eibd/backend/ft12.cpp:217-320 | for any receiver whose turns are decided by the bytes they have seen: however a stream is split into reads, state, output and leftover are those of one read |
| Streaming.DriveConcat | eibd/backend/tpuartserial.cpp:344-531 | consuming a buffer, and then the rest of it with more bytes, is consuming all at once |
| Streaming.SessionIsDrive | eibd/backend/ft12.cpp:206-338 | for any receiver that goes by a part of the state which nothing else changes: whatever else goes on between the reads, output, leftover and that part are those of one read of all the bytes |
| Ft12.ReadsDoNotMatter | eibd/backend/ft12.cpp:206-338 | as the loop is meant: two sessions with the same bytes, however split into reads and with whatever queued, sent and timed out in between, give the same packets, acknowledgement bytes, flag, last payload and leftover |
| Ft12.WrittenReads | eibd/backend/ft12.cpp:206-338 | the same for the loop as written, on bytes on which the variable holds the right length |
| Ft12.SendQueueDependsOnReads | eibd/backend/ft12.cpp:226-235 | the send queue does depend on the reads: one byte 0xE5 pops a frame that was sent before it and not one that is sent after it |
| Ft12.WrittenDecided | eibd/backend/ft12.cpp:224-320 | a turn as written does with some bytes what it does with more behind them, and gets on, exactly if they are no repeated frame or the variable is neither 0 nor more than what is there |
| Ft12.ZeroEndsReception | eibd/backend/ft12.cpp:287-315 | with 0 in the variable and a frame first that counts as repeated: over any session, the loop as written hands nothing up and keeps every byte, where the loop as it is meant acknowledges the frame and goes on |
| Ft12.ResetThenZero | eibd/backend/ft12.cpp:287-315 | there is such a frame from reset on |
| Ft12.LeftoverIsPartial | eibd/backend/ft12.cpp:224-320 | what the loop as written leaves over is nothing or the start of a frame whose end is missing, unless it is stuck at a repeated frame with 0 in the variable |
| Ft12.ExactlyOnce | eibd/backend/ft12.cpp:206-338 | from reset, for the loop as written, any initial value of its variable, any split into reads and anything sent in between, with a peer that toggles the control byte per new frame and repeats frames at will: the packets handed up are its payloads once each and in order, equal neighbours included, with one acknowledgement per transmission |
| Ft12.WrittenExactly | eibd/backend/ft12.cpp:241-316 | over a whole buffer, with the variable keeping its last value: the loop as written consumes the same bytes turn by turn as it is meant to if and only if every repeated frame on the way finds its own length in the variable, and then has the same result |
| Ft12.WrittenSession | eibd/backend/ft12.cpp:206-338 | so do whole sessions, if on their bytes the variable holds the right length |
| Ft12.PeerKeeps | eibd/backend/ft12.cpp:262-316 | on the bytes of any peer that repeats each frame any number of times it does, whatever it held before |
| Ft12.AnyLengthExactly | eibd/backend/ft12.cpp:241-316 | with any value found in the variable on each turn, the peer's frames arrive for every choice of values if and only if no frame is repeated |
| Ft12.FT12LowLevelDriver.Read | eibd/backend/ft12.cpp:217-320 | the loop as written computes Drive of the written turn on the buffer and the bytes read; stuck if and only if its turns no longer delete anything |
| Ft12.FT12LowLevelDriver.LongFrame | eibd/backend/ft12.cpp:239-316 | case 0x68 with checksum loop and sequence check computes the written turn, `len` keeping its last value where the code does not assign it |
| Ft12.FT12LowLevelDriver.Sequence | eibd/backend/ft12.cpp:287-314 | the two-stage toggle hands a payload up if and only if it is new, and sets the flag by the control byte |
| Ft12.FT12LowLevelDriver.Checksum | eibd/backend/ft12.cpp:258-260 | the loop computes the byte sum |
| Ft12.FT12LowLevelDriver.SendPacket | eibd/backend/ft12.cpp:109-139 | the frame built in place is the one a receiver takes apart, under the alternating control byte |
| Ft12.FT12LowLevelDriver.SendReset | eibd/backend/ft12.cpp:141-156 | both flags are reset and the reset frame is queued |
| Ft12.ShortExactly | eibd/backend/ft12.cpp:236-260 | every intact short frame is acknowledged; exactly the control byte of the next new frame moves the flag on, exactly a lower half of 0 is handed up as a reset, and nothing else happens |
| Ft12.ShortTakesTurn | eibd/backend/ft12.cpp:236-260 | a short frame with the control byte of the next new frame takes its turn: the long frame after it needs the other one |
| Ft12.DamagedShort | eibd/backend/ft12.cpp:236-260 | a damaged short frame is dropped without an answer |
| Ft12.FrameBytes | eibd/backend/ft12.cpp:109-139 | a long frame byte by byte |
| Ft12.FT12LowLevelDriver.SendPart | eibd/backend/ft12.cpp:319-338 | the end of the outer turn computes AfterTurn: the head goes out when idle or after the timer, and is waited for only if all of it was written |
| Ft12.Resends | eibd/backend/ft12.cpp:319-338 | the head goes out when idle and again after each timeout, without limit, and stays; 0xE5 takes exactly it off the queue |
| AddressTables.Table.Add | eibd/backend/tpuartserial.cpp:141-163 | fails if and only if the address is there; otherwise the set gains exactly it, without duplicates |
| AddressTables.Table.Remove | eibd/backend/tpuartserial.cpp:165-189 | fails if and only if the address is not there; the set loses exactly it |
| AddressTables.Table.Contains | eibd/backend/tpuartserial.cpp:425-437 | the loop finds an address if and only if it is in the set |
| Tpuart.ReadsDoNotMatter | eibd/backend/tpuartserial.cpp:344-593 | while no receive timeout fires: two sessions with the same bytes, however split into reads and with whatever queued, sent and timed out in between, give the same telegrams, acknowledgements, flag and leftover |
| Tpuart.OneAckEach | eibd/backend/tpuartserial.cpp:418-442 | from an idle receiver, over any such session: the acknowledgement bytes are those due for the data telegrams handed up, one each and in order, and one for the telegram being received; FramesAnswered says which for the telegrams of frames |
| Tpuart.FramesAnswered | eibd/backend/tpuartserial.cpp:397-442 | for any frames of other stations, each as its sender puts it on the bus: over any session they come up unchanged and in order, and each is answered with one byte, 0x11 if accept-all is on for its kind of address or its destination is in that table, and 0x10 otherwise |
| Tpuart.AcksAreDue | eibd/backend/tpuartserial.cpp:418-528 | the same from any state in which the flag belongs to the front of the buffer |
| Tpuart.Segmentation | eibd/backend/tpuartserial.cpp:397-528 | telegrams sent back to back, read in any pieces and with anything sent in between, are handed up one by one, unchanged and in order, and each data telegram is acknowledged once |
| Tpuart.TimeoutLeavesFlag | eibd/backend/tpuartserial.cpp:443-458 | a telegram that was acknowledged and timed out can leave the flag set with an empty buffer |
| Tpuart.TimeoutExactly | eibd/backend/tpuartserial.cpp:443-458 | for the leftover of any session from an idle receiver: a receive timeout empties the buffer and has the next data telegram go without an acknowledgement if and only if the leftover has a header, is an incomplete telegram read from each of its first bytes, and the rest are bytes that leave the flag alone |
| Tpuart.ExpireFlag | eibd/backend/tpuartserial.cpp:443-458 | the same of any buffer and flag: when the flag is left set with an empty buffer |
| Tpuart.AckOnlyIfFlagClear | eibd/backend/tpuartserial.cpp:418-461 | a complete data telegram is handed up in any case, and acknowledged if and only if the flag is clear when it comes |
| Tpuart.TPUARTSerialLayer2Driver.Read | eibd/backend/tpuartserial.cpp:344-531 | the loop computes Drive, or Expire when the timer of an incomplete telegram has run out |
| Tpuart.TPUARTSerialLayer2Driver.SendAck | eibd/backend/tpuartserial.cpp:418-442 | the acknowledgement byte for the telegram at the front, which FramesAnswered gives for every frame |
| Tpuart.TPUARTSerialLayer2Driver.Confirm | eibd/backend/tpuartserial.cpp:351-388 | a confirmation pops the send queue, and so does the fourth negative one |
| Tpuart.Denied | eibd/backend/tpuartserial.cpp:369-388 | a frame that is denied goes out again up to three times, and is dropped and followed by the next at the fourth |
| Tpuart.Done | eibd/backend/tpuartserial.cpp:351-364 | a confirmed frame is done with whatever the retry count, which starts again |
| Tpuart.Unheard | eibd/backend/tpuartserial.cpp:532-543 | a frame that nothing is heard of goes out again twice, and is dropped at the third timeout |
| Tpuart.DroppedBySilence | eibd/backend/tpuartserial.cpp:532-543 | a timeout drops the frame under way if and only if the count is at least two, be the failures its own or those of one before it |
| Tpuart.NextUnheard | eibd/backend/tpuartserial.cpp:532-543 | so after a frame that nothing was heard of the next one is dropped at its first timeout |
| Tpuart.TPUARTSerialLayer2Driver.EndTurn | eibd/backend/tpuartserial.cpp:532-593 | the end of the outer turn: a missing confirmation drops the head from the third time on, the watchdog counts down, and the head is sent or the chip asked for its state only with nothing left over |
| UpdateRing.ExactUpTo256 | eibd/libserver/groupcache.cpp:274-303 | with the cursor of an earlier call, a call yields exactly the updates since, in order, if and only if there are at most 256 |
| UpdateRing.NewestBeyond256 | eibd/libserver/groupcache.cpp:274-303 | with 257 to 65535 it yields exactly the newest 256 |
| UpdateRing.ChainedCalls | eibd/libserver/groupcache.cpp:268-303 | calls that each pass on the returned cursor yield the whole history if no batch exceeds 256, however often the counters wrap |
| UpdateRing.HoldsAppend | eibd/libserver/groupcache.cpp:113-115 | writing the next slot keeps the ring equal to the newest 256 updates |
| UpdateRing.SlotsAreNewest | eibd/libserver/groupcache.cpp:287-300 | the slots before the writer are the newest updates |
| GroupCache.GroupCache.LastUpdates | eibd/libserver/groupcache.cpp:274-303 | adjustment, skipping and collecting return Since(history, start) and the writer's position; with the cursor of a call at most 256 updates ago, exactly the updates since |
| GroupCache.ClampedBehind | eibd/libserver/groupcache.cpp:276-285 | after the adjustment the cursor is min(distance, 256) behind, for every pair of 16-bit numbers |
| GroupCache.LookupIsLatest | eibd/libserver/groupcache.cpp:101-139 | over any sequence of receptions, timeouts, removals and clears, an address maps to its newest entry since it was last removed, or to the placeholder of the first timeout |
| Apdu.RoundTrip | eibd/libserver/apdu.cpp:239-367 | every group value PDU, short or long, is read from its bytes as itself, except that a long one without data is read as a small 0 |
| GroupCache.JustReceived | eibd/libserver/groupcache.cpp:100-139 | right after a value has come, it is what its address maps to |
| GroupCache.Canonical | eibd/libserver/groupcache.cpp:85-97 | the sorted array is determined by the abstract map |
| GroupCache.GroupCache.Find | eibd/libserver/groupcache.cpp:44-59 | binary search finds the entry if and only if the map has the address |
| GroupCache.GroupCache.Remove | eibd/libserver/groupcache.cpp:61-83 | the array loses exactly that address and stays sorted |
| GroupCache.GroupCache.Add | eibd/libserver/groupcache.cpp:85-97 | the shifting loop inserts the entry so that the array stays strictly sorted |
| GroupCache.Insert | eibd/libserver/groupcache.cpp:85-97 | the loop itself, on the array's contents |
| GroupCache.GroupCache.GetLData | eibd/libserver/groupcache.cpp:100-139 | for an enabled cache: every response and write of a group value, short or long, as the encoder makes it, is stored and noted in the ring; a read is not; and of all other frames exactly those that are read as a response or write |
| GroupCache.GroupCache.Lookup | eibd/libserver/groupcache.cpp:189-211 | the first answer of a read: the latest entry unless it is older than asked, otherwise nothing or, with a timeout, a wait, for which the frame with a group read is sent |
| GroupCache.GroupCache.Await | eibd/libserver/groupcache.cpp:223-258 | a turn of the waiting loop: the latest entry if fresh, a placeholder on timeout, stored only if there was no entry |
| GroupCache.GroupCache.Clear | eibd/libserver/groupcache.cpp:152-160 | the array is empty and the map too |
| GroupCache.GroupCache.Stop | eibd/libserver/groupcache.cpp:162-170 | cleared and disabled; deregistered if and only if it was enabled |
| Layer3.DiscardedExactly | eibd/libserver/layer3.cpp:309-322 | over any sequence of frames: one is discarded if and only if it is flagged repeated and equals, up to the flag, a frame dispatched earlier with no frame since then, discarded ones aside, that came more than a second after that |
| Layer3.PromptRepetitionDiscarded | eibd/libserver/layer3.cpp:309-322 | with a clock that does not go back, a repetition within a second of a dispatched frame is discarded |
| Layer3.TableIsRemembered | eibd/libserver/layer3.cpp:319-358 | the ignore table holds exactly the entries of the remembered frames |
| Layer3.FilterExact | eibd/libserver/layer3.cpp:330-348 | dispatch reaches every matching registration as often as it is registered and no other |
| Layer3.DispatchedExactly | eibd/libserver/layer3.cpp:309-348 | who is called with what: broadcasts go to the broadcast callbacks, group frames to those registered for the group or for all, others to those for the destination and the source or any source, the driver's own address being read as 0, and always without the repeat flag |
| Layer3.GroupCallbackFrames | eibd/libserver/layer3.cpp:330-348 | a callback registered for groups only is called with a frame if and only if it is to a group other than 0 and the callback is registered for that group or for all |
| Layer3.Layer3.Receive | eibd/libserver/layer3.cpp:305-358 | a frame is discarded, or each matching registration is called once, in order, with the presented frame; the ignore table becomes IgnoreAfter |
| Layer3.Layer3.ReceiveMonitor | eibd/libserver/layer3.cpp:287-304 | a busmonitor frame reaches all monitors once, and old ignore entries go |
| Layer3.Layer3.Expire | eibd/libserver/layer3.cpp:349-355 | the restarting loop ends with exactly the unexpired entries, in order |
| Layer3.Layer3.RegisterGroupCallBack | eibd/libserver/layer3.cpp:218-239 | fails only in busmonitor mode: the driver never refuses; the driver's table stays the set of registered non-zero addresses |
| Layer3.Layer3.DeregisterGroupCallBack | eibd/libserver/layer3.cpp:118-140 | removes exactly one matching entry, if there is one; the driver's table follows |
| Layer3.Layer3.RegisterIndividualCallBack | eibd/libserver/layer3.cpp:241-275 | fails if and only if in busmonitor mode, the source is locked, or the destination is the driver's own non-zero address; the driver's table is the registered non-zero addresses and its own, locked entries keep distinct sources |
| Layer3.Layer3.DeregisterIndividualCallBack | eibd/libserver/layer3.cpp:142-165 | removes exactly one matching entry, if there is one; the driver keeps its own address |
| Layer3.Layer3.RegisterBusmonitor | eibd/libserver/layer3.cpp:167-191 | succeeds if and only if nothing else is registered and the driver can switch; mode is 1 if and only if a monitor is registered |
| Layer3.Layer3.DeregisterBusmonitor | eibd/libserver/layer3.cpp:59-79 | removes one registration of the callback; mode returns to 0 with the last one |
| Layer3.Layer3.RegisterBroadcastCallBack | eibd/libserver/layer3.cpp:206-216 | fails if and only if in busmonitor mode |
| Layer3.Layer3.DeregisterBroadcastCallBack | eibd/libserver/layer3.cpp:101-116 | removes one registration of the callback |
| AddrTab.AddrTable.BuildAddrTable | bcugen/lib/addrtab.cpp:176-228 | the address table is the sorted duplicate-free union; it succeeds if and only if every object that has a send or a read-request address has an index below the number of associations; then slot i holds the object number of object i and the index of its send address or, without one, of its read-request address, every address of every object has a slot, every slot is one of those, and the slots are a permutation of them all |
| AddrTab.Associate | bcugen/lib/addrtab.cpp:188-228 | both passes over the objects fill every slot with all pairs, or stop at a write outside |
| AddrTab.PlaceOutgoing | bcugen/lib/addrtab.cpp:195-207 | the first pass puts the outgoing pairs, each into the slot of its object |
| AddrTab.PlaceOthers | bcugen/lib/addrtab.cpp:208-228 | the second pass puts all other pairs into free slots; the cursor never overruns, and no filled slot changes |
| AddrTab.DeviceSplits | bcugen/lib/addrtab.cpp:213-221 | outgoing and other pairs together are all pairs, each once |
| AddrTab.AddressedInRange | bcugen/lib/addrtab.cpp:195-207 | if every object has an address, all writes are inside |
| AddrTab.NotAlwaysInRange | bcugen/lib/addrtab.cpp:195-207 | a device of two objects for which one is not |
| AddrTab.BuildAddresses | bcugen/lib/addrtab.cpp:182-186 | the union of the objects' addresses, strictly sorted |
| AddrTab.Sort | common/array.h:241-251 | the exchange sort in place: sorted, and a permutation |
| AddrTab.BuildObjAddress | bcugen/lib/addrtab.cpp:81-155 | succeeds if and only if every receive, read, update, send and read-request address is 16 bits wide and the mask version allows the update addresses there are; the list then has exactly those addresses, once each |
| AddrTab.AddAddress | bcugen/lib/addrtab.cpp:61-79 | adds the address at the end unless it is there |
| AddrTab.BuildObjNos | bcugen/lib/addrtab.cpp:157-164 | objects with addresses are numbered upwards, the others get -1; if all have addresses the number is the index |
| AddrTab.AddrNo | bcugen/lib/addrtab.cpp:166-174 | the index of the address |
| Tlv.SplitCanonical | common/image.cpp:904-921 | for any element codec: what the length fields split into joins back to the same bytes |
| Tlv.JoinFaithful | common/image.cpp:849-854 | and what is joined splits back into the same elements |
| Tlv.ReadAll | common/image.cpp:880-923 | the loop with its 16-bit position, watched for any number of turns, computes Loop, for every byte string |
| Tlv.LoopIsSplit | common/image.cpp:904-921 | up to 65535 bytes, the loop ends with what the length fields split the bytes into |
| Tlv.NeverAtEnd | common/image.cpp:904-921 | beyond, for every byte string, no number of turns gets to the end of the data |
| Tlv.DeliveredExactly | common/image.cpp:904-921 | bytes that split are delivered in some number of turns if and only if there are at most 65535 |
| Image.ImageCanonical | common/image.cpp:839-923 | every accepted byte string of at most 65535 bytes is written back unchanged |
| Image.ImageRoundTrip | common/image.cpp:839-923 | an image of at most 65535 bytes parses back to itself if and only if its streams hold what their types can say and the last one has at least five bytes |
| Image.ReadExactly | common/image.cpp:878-923 | bytes that are an image are read as that image, in some number of turns, if and only if there are at most 65535 |
| Image.EndlessImage | common/image.cpp:878-923 | an image of 65546 bytes, right in header and lengths, on which the loop is at position 10 after any number of turns, with one stream more each turn |
| Image.BodyRoundTrip | common/image.cpp:102-802 | for all stream kinds: what toArray writes, init reads back |
| Image.BodyCanonical | common/image.cpp:102-802 | for all stream kinds: what init reads, toArray writes back byte for byte |
| Image.StreamCanonical | common/image.cpp:48-100 | every framed stream is read as one that holds what its type can say, or is kept as invalid, and is written back unchanged |
| Image.StreamRoundTrip | common/image.cpp:48-100 | and every well-formed stream reads back as itself |
| Image.StringInBytes | common/image.cpp:265-280 | a string parameter byte by byte: length and type, address and maximal length big-endian, the name and a zero |
| Image.IntInBytes | common/image.cpp:317-331 | an integer parameter likewise, its size as a signed byte |
| Image.FloatInBytes | common/image.cpp:366-379 | a float parameter likewise |
| Image.GroupObjectInBytes | common/image.cpp:505-518 | a group object likewise |
| Image.ListInBytes | common/image.cpp:433-455 | a list parameter of one string byte by byte |
| Image.WordsInBytes | common/image.cpp:182-225 | a BCU type and a code byte by byte |
| Image.KeyInBytes | common/image.cpp:778-801 | a key byte by byte |
| Image.ListCanonical | common/image.cpp:394-455 | the list parameter: name, count and zero-terminated elements |
| Image.InitList | common/image.cpp:394-430 | the pointer loops of the list parser compute ListOf, and read only the bytes of the parameter if and only if, when they get to the elements, the count is at most that of the strings there |
| Image.ListCounted | common/image.cpp:394-430 | a list parameter is accepted if and only if its name and last string end in it and its count is that of its strings |
| Image.CountTooLarge | common/image.cpp:420-424 | a list of one string that says it has two |
| Image.Scan | common/image.cpp:410-412 | the scan for the terminating zero |
| Image.KeysCanonical | common/image.cpp:763-801 | 32-bit keys |
| Image.Image.ToArray | common/image.cpp:839-857 | header, length and streams |
| Image.ReadImage | common/image.cpp:878-923 | for every byte string: ends if there are at most 65535 bytes, and then gives an image if and only if the bytes are one; for more it gives none |
| LoadImage.AddSegmentOverlap | common/loadimage.cpp:45-64 | a segment is accepted if and only if it shares no address with those accepted before; the accepted ones, empty ones included, stay pairwise disjoint |
| LoadImage.TouchOrDisjoint | common/loadimage.cpp:53-56 | the two start-in-other tests are disjointness of non-empty segments |
| LoadImage.CheckLayout | common/loadimage.cpp:177-242 | a BCU2 layout passes if and only if the five segments are pairwise disjoint and the size conditions hold; an overlap code means that two of them share an address |
| LoadImage.PrepareLoadImage | common/loadimage.cpp:66-466 | for every byte string: loadable if and only if it has at most 65535 bytes, parses and passes the checks; the address is taken from two bytes of the memory that starts with the code; for a BCU2 the keys are those of the image or all ones, the controls are those that load its layout into a device (LayoutLoaded), and the requests for objects 1, 2 and 3 are unload, start, controls, complete with answers 0, 2, 2, 1, and their memory writes are in place and in the code under exact conditions |
| LoadImage.Loader.Requests | common/loadimage.cpp:272-458 | the mutated request record, appended again and again, yields that protocol for each object, exactly the memory writes AllWrites, and exactly the controls LayoutTold |
| LoadImage.ToldDetermines | common/loadimage.cpp:295-458 | the controls tell the whole layout: accepted layouts with the same controls have the same tables, pointers and object count, and the same bytes written |
| LoadImage.LayoutLoaded | common/loadimage.cpp:295-458 | a device that obeys the controls one by one ends with the layout of the start stream: the pieces of memory with their owner, access, kind and check, the entry points of the three objects, and every pointer in its place |
| LoadImage.Loader.LoadSegments | common/loadimage.cpp:385-407 | the optional segment requests are the allocation controls of object 3, and write the text less one byte, the EEPROM data and the parameters, each if its length is not 0 (or over 1) |
| LoadImage.WritesExactly | eibd/libserver/managementclient.cpp:737-743 | for every accepted layout: every memory write stays in the segment that its request allocates if and only if the association table and the text are not empty; and takes only bytes of the code if and only if, besides, the written segments lie between its ends |
| LoadImage.EmptyText | common/loadimage.cpp:385-391 | every accepted layout with an empty text has 65535 bytes written from its start on |
| LoadImage.EmptyAssociations | common/loadimage.cpp:335-339 | likewise with an empty association table |
| LoadImage.LongText | common/loadimage.cpp:236-242 | every accepted layout whose text ends behind the code has bytes written that are not in the code |
| LoadImage.LayoutsAccepted | common/loadimage.cpp:177-242 | layouts of all three kinds pass the checks |
| LoadImage.AddressExactly | common/loadimage.cpp:256 | the address does not depend on what lies behind the code if and only if the code has more than 0x18 bytes |
| LoadImage.SmallImageLoadable | common/loadimage.cpp:165-169 | for every such layout there is a loadable image with a program of exactly 0x18 bytes |
| LoadImage.SmallImageRead | common/image.cpp:839-923 | and it is read from its bytes |
| LoadImage.SendControl | common/loadimage.cpp:357-458 | a control keeps a started object between start and complete and leaves the others alone |

## Left out

- Sockets, serial ports, termios, threads and tracing: arrival, loss and timers are events.
- Source addresses of packets (`recvall`, NAT, `compareIPAddress`): one fixed peer is assumed.
- The connect phase of the tunnel client, reconnecting, and packets of earlier sessions: the theorems are per session.
- TunnelClient.IterateKeepsOk: for the connected link-layer session; the connect retry, and the empty control entries
  of busmonitor switching, two of which next to each other break the head invariant, are not part of the model.
- TunnelClient.EIBNetIPTunnel.RunOnce: likewise.
- Configuration channels (types 1 and 2) of the server in the two-party system; their queue and retry handling is in
  the connection's step functions.
- One FIFO channel per direction: TunnelSystem has one for requests and one for acknowledgements, which allows more
  interleavings.
- Error-status acknowledgements: the two-party system sends valid cEMI frames on type-0 channels.
- Heartbeat timeouts of the server's connections, the timers of its NAT entries, and its busmonitor counter.
- T_Connect between two instances: a received connect request closes the machine, so the pair starts connected.
- Aliasing of group cache entries and group objects: they are values in their arrays.
- GroupCache.GroupCache.LastUpdates: one pass of the waiting loop; a pass without updates leaves the cursor at the
  end, so the next pass is a call with the returned cursor.
- GroupCache.GroupCache.Start: the answer of the registration is a parameter.
- Callbacks that register or deregister while a frame is being dispatched, and virtual busmonitor registration.
- Ft12.ReadsDoNotMatter: of the loop as it is meant; WrittenReads has the loop as written, on bytes on which the
  variable is right.
- Negative values of the FT1.2 length variable: deletepart takes them as large ones.
- FT1.2 sending end to end: the acknowledgement byte has no number.
- What RecvLPDU does with a telegram (parsing, checksum, busmonitor copies), the bytes that the driver sends, and
  sessions that go on after a receive timeout: the timeout is proved of the read in which it fires.
- AddrTab.AddrTable.BuildAddrTable: the slots are options instead of three arrays, and a write outside them ends the
  method with false.
- Image.StreamBytes: a list parameter of 64 KB or more, where the write position wraps too.
- `printAddrTab`, `PatchImage`, XML, code generation, the rest of apdu.cpp, the description-response codec and the client
  protocol: formatting, or fixed layouts.
