# Verified model of the nRF BLE stack

A Dafny model of the link layer and host of nrf-ble-stack: the acknowledged exchange of data PDUs, the
connection-event clock, channel selection, the central's control procedures, advertising data, scanning
and the decision to connect, the GATT server with its attribute table, the GATT client's discovery
procedures, the ATT MTU and L2CAP signalling.

Every component comes in the same three layers:

- a specification on values, one function per handler (`ConnSpec`, `ClockSpec`, `CtrlSpec`, `ScanSpec`,
  `AttSpec`, `ClientSpec`, `ValueSpec`, `GattTable`, `AdData`, `Hop`);
- a class or methods that update fields, rings, arrays and buffers in place with the loops of the source,
  proved to compute the specification (`ConnRuntime`, `ConnClock`, `CentralControl`, `Scanner`, `AttServer`,
  `GattClient`, `ValueServer`, `GattBuilder`, `AdRuntime`, `Hop`, `L2cap`);
- results about all runs or all inputs (`AckResults` over `AckSystem` and `AckInvariant`, `ClockResults`,
  `Supervision`, `Timing`, `CtrlResults`, `CtrlOrder`, `ScanResults`, `ScanDecisions`, `TableFacts`, `Discovery` to `BuiltDiscovery`,
  `BuiltEntries`, `AttOctets`, `ValueResults`, `ValueReads`, `Mtu`, `L2cap`).

Handlers and calls are atomic steps. Callbacks to the application are entries of logs. What the radio hears,
whether a queue accepts a request, timestamps of received packets and the peer's octets are parameters.

Six properties one might expect hold only under a condition, and the model states which one:

- the exchange makes progress exactly when the first packet the peripheral hears passes its CRC
  (`AckResults.ProgressExactly`, `StuckForever`, `LivelockReachable`);
- discovery of all services is complete exactly when services with 16-bit UUIDs are declared first
  (`BuiltDiscovery.AllServicesDiscovered`), because the server skips entries of another length;
- discovery of characteristics and descriptors is complete exactly when UUIDs of one width stand together
  (`BuiltEntries.EntriesDiscovered`), for the same reason;
- a connection update reaches its instant exactly when its timeout is not 32768 units and the peer sends no
  void update (`CtrlResults.UpdatesStayAheadExactly`, `StuckForGood`, `StuckIsReachable`), because that timeout
  is 0 ms in sixteen bits;
- replacing or clearing the scan filter revokes candidates (`ScanResults.NewFilterRevokes`), and a connection
  request exactly when none was pending or on the air at the call, or a stop or a closing window comes before
  the radio has finished it (`ScanResults.OnlyAPendingRequestGoesOut`, `OldRequestGoesOut`);
- a signalling request is acted on only if it was received exactly when the lengths it declares are below
  65532 (`L2cap.TakenExactly`, `ActedOnIsReceivedExactly`, `HeaderOnlyIsActedOn`), because the sums with the
  header lengths are taken in sixteen bits.

`dafny verify dfyconfig.toml` checks the whole project.

## Model

| member | source | states |
|---|---|---|
| `AckResults.ExactlyOnceInOrder` | stack/controller/ble_controller_central.c:1112-1195 | in every reachable state of two ends over a channel that may lose or corrupt any packet, each end has processed a prefix of the new PDUs its peer staged, in order and once each, lagging by at most the outstanding one and the one being handed over |
| `AckResults.NoFalseAcknowledgement` | stack/controller/ble_controller_common.c:660-672 | although a retransmission repeats the stored header with its old NESN, acked <= the NESN count in the peer's stored header <= accepted <= acked + 1, in both directions |
| `AckResults.NoResponseRefused` | stack/controller/ble_controller_common.c:674-699 | the control-response slot is empty whenever a received PDU is processed, in either role and in every reachable state, so the ignored enqueue result is always true |
| `AckResults.CleanEventAcknowledgesOne` | stack/controller/ble_controller_peripheral.c:496-521 | unless the first packet ever heard failed its CRC, an event whose two packets arrive acknowledges exactly one central PDU and leaves both ends resynchronised |
| `AckResults.ProgressExactly` | stack/controller/ble_controller_peripheral.c:523-548 | k clean events acknowledge at least k central PDUs if and only if the first packet the peripheral heard passed its CRC (or there was no clean event) |
| `AckResults.StuckForever` | stack/controller/ble_controller_peripheral.c:523-548 | a CRC error on that first packet is absorbing: in every continuation the two stored PDUs are all that is ever sent and nothing more is acknowledged |
| `AckResults.LivelockReachable` | stack/controller/ble_controller_peripheral.c:523-548 | for every n the stuck state is reached by one corrupted packet followed by n clean events without any acknowledgement |
| `AckResults.NothingLostOrRepeated` | stack/controller/ble_controller_common.c:320-455 | per source, what was staged as new PDUs followed by what is pending is exactly what was accepted for sending, at both ends in every reachable state |
| `AckResults.DataExactlyOnceInOrder` | stack/controller/ble_controller_common.c:620-658 | the L2CAP frames one end is given are the first ones the other end's queue accepted, in order; queue, stored PDU and hand-over hold the rest |
| `AckResults.ControlExactlyOnceInOrder` | stack/controller/ble_controller_common.c:674-699 | the PDUs with the control LLID among what one end has processed are, in order and once each, the payloads the other end staged from its response slot and its control slot |
| `AckResults.ControlIsAnswered` | stack/controller/ble_controller_common.c:680-692 | at the end of an event, in every reachable state and at both ends, the response slot takes what the handler answers if and only if the PDU just processed has the control LLID and a payload and the answer has 1 to 251 octets |
| `AckResults.CentralStagesInPriorityOrder` | stack/controller/ble_controller_common.c:415-455 | a new central PDU is the oldest payload of the first non-empty source in the order response, control, L2CAP, and only that source loses it |
| `AckResults.PeripheralChoosesInPriorityOrder` | stack/controller/ble_controller_peripheral.c:426-461 | when the header arrives the peripheral prepares the oldest payload of the first non-empty source in the order response, control, L2CAP, unless it must repeat, and consumes none |
| `AckResults.QueueingKeepsTheChoice` | stack/controller/ble_controller_common.c:320-363 | a payload queued after that joins the end of its source and changes neither the choice nor what is prepared |
| `AckResults.QueueTakesExactly` | stack/controller/ble_controller_common.c:320-363 | in every reachable state a control payload of 1 to 251 octets is taken if and only if none waits and a frame of 1 to 247 if and only if fewer than four wait; it joins its own source at its own end and nothing else changes |
| `AckResults.PeripheralCommitsItsChoice` | stack/controller/ble_controller_peripheral.c:426-461 | the payload chosen at BCMATCH is consumed only behind a passing CRC and as a new PDU; its pre-staged header is the one the committed SN/NESN give |
| `AckInvariant.StepInv` | stack/controller/ble_controller_peripheral.c:419-582 | every handler step, queueing, loss and corruption keeps the counters of both directions, conservation, the per-stage facts, the progress cases and the free response slot |
| `ConnRuntime.L2capTxQueue.Push` | stack/controller/ble_controller_common.c:620-658 | the four-slot ring appends to the FIFO it stands for |
| `ConnRuntime.L2capTxQueue.Pop` | stack/controller/ble_controller_common.c:387-397 | the ring drops the oldest entry, and does nothing when empty |
| `ConnRuntime.Runtime.QueueControlResponse` | stack/controller/ble_controller_common.c:320-355 | accepted exactly when connected, of fitting length and the slot is free; otherwise nothing changes |
| `ConnRuntime.Runtime.QueueControl` | stack/controller/ble_controller_common.c:320-363 | the same for the control slot |
| `ConnRuntime.Runtime.QueueL2capPayload` | stack/controller/ble_controller_common.c:620-658 | accepted exactly when connected, non-empty, within 251 octets framed and the ring has room; the framed payload joins the end |
| `ConnRuntime.Runtime.LoadPendingTxPdu` | stack/controller/ble_controller_common.c:415-455 | copies the best pending source into the transmit buffer with the given NESN/SN, consuming nothing |
| `ConnRuntime.Runtime.StageConnResponse` | stack/controller/ble_controller_common.c:660-672 | a new PDU becomes the stored one and its source is consumed; otherwise the stored PDU goes out again unchanged |
| `ConnRuntime.Runtime.CommitSequence` | stack/controller/ble_controller_central.c:1144-1164 | what an acknowledgement and a new PDU do to SN, NESN and the outstanding flag |
| `ConnRuntime.Runtime.CentralStartEvent` | stack/controller/ble_controller_central.c:1112-1142 | the in-place event start computes the specified state, and what is on air is the stored PDU |
| `ConnRuntime.Runtime.CentralHandlePacket` | stack/controller/ble_controller_central.c:1144-1164 | the in-place CRC-OK handler computes the specified state |
| `ConnRuntime.Runtime.CentralHandleCrcError` | stack/controller/ble_controller_central.c:1166-1171 | a CRC error at the central hands nothing on and acknowledges nothing |
| `ConnRuntime.Runtime.PrestageConnResponseFromHeader` | stack/controller/ble_controller_peripheral.c:426-461 | the in-place BCMATCH handler prepares the response the specification gives for a packet that will pass |
| `ConnRuntime.Runtime.PeripheralStartEvent` | stack/controller/ble_controller_peripheral.c:481-494 | the in-place event start of the peripheral forgets what the last header matched |
| `ConnRuntime.Runtime.PeripheralHandleBcmatch` | stack/controller/ble_controller_peripheral.c:550-558 | the header is examined only while an event is in progress |
| `ConnRuntime.Runtime.PeripheralHandlePacket` | stack/controller/ble_controller_peripheral.c:496-521 | the in-place CRC-OK handler commits and stages as specified; what is on air is the stored PDU |
| `ConnRuntime.Runtime.PeripheralHandleCrcError` | stack/controller/ble_controller_peripheral.c:523-548 | a CRC error repeats the stored PDU or stages an empty one and consumes nothing |
| `ConnRuntime.Runtime.ProcessPending` | stack/controller/ble_controller_common.c:674-699 | a received PDU is handed on once, and only a control PDU with a payload gets its answer into the response slot |
| `ConnRuntime.Runtime.CentralHandleDisabled` | stack/controller/ble_controller_central.c:1173-1195 | the radio phases of the central in place |
| `ConnRuntime.Runtime.PeripheralHandleDisabled` | stack/controller/ble_controller_peripheral.c:560-582 | the radio phases of the peripheral in place |
| `ConnClock.ConnClock.NextEventTick` | stack/controller/ble_controller_common.c:124-146 | computes the next anchor tick modulo 2^32 and, at the instant, puts the pending parameters in force and clears the misses |
| `ConnClock.ConnClock.OnTimer` | stack/controller/ble_controller_common.c:701-770 | the timer handler in place: tick, supervision count and drop, PHY change, event counter modulo 2^16 |
| `ConnClock.ConnClock.OnGoodPacket` | stack/controller/ble_controller_peripheral.c:496-521 | a valid packet re-anchors a peripheral only, and is seen by supervision |
| `ConnClock.ConnClock.OnBadPacket` | stack/controller/ble_controller_peripheral.c:523-548 | a CRC error re-anchors a peripheral but counts as no valid packet |
| `ConnClock.ConnClock.OnConnUpdate` | stack/controller/ble_controller_common.c:261-275 | a long enough CONN_UPDATE_IND replaces the pending update; a zero interval or timeout voids it |
| `ConnClock.ConnClock.OnPhyUpdate` | stack/controller/ble_controller_common.c:224-259 | 0 keeps a PHY, unsupported ones are ignored, an asymmetric pair drops the link |
| `ClockResults.SecondCallAgrees` | stack/controller/ble_controller_peripheral.c:499-503 | the peripheral's second call in the same event keeps the spacing of the first from the new anchor, window offset included, and never applies the update again |
| `ClockResults.UpdateTimeline` | stack/controller/ble_controller_common.c:124-146 | whatever is heard, the new parameters are in force after exactly the events up to and including the instant, for all 16-bit counters and wrap-arounds |
| `ClockResults.TickClosedForm` | stack/controller/ble_controller_common.c:124-146 | for a central, and for a peripheral while it hears nothing, the n-th anchor is first + old interval per event before the instant + window offset at it + new interval per event after it, modulo 2^32; the offset is missing exactly when the update was learned in the last event before its instant |
| `ClockResults.ConnUpdateRoundTrip` | stack/controller/ble_controller_common.c:261-275 | the octets of a CONN_UPDATE_IND give its receiver the offset, parameters and instant its sender put in |
| `ClockResults.ConnUpdateTogether` | stack/controller/ble_controller_central.c:325-360 | the update is in force on both ends in the same event with equal parameters whenever the peripheral processes it within the six events before the instant, and one processed later leaves the ends apart at the instant, whatever follows |
| `ClockResults.PhyUpdateTogether` | stack/controller/ble_controller_central.c:362-391 | the same for a PHY_UPDATE_IND: both ends change PHY in the event of the instant, and one processed later leaves them apart |
| `Supervision.SupervisionExact` | stack/controller/ble_controller_common.c:718-739 | in every run of events and of parameter updates learned in between, from any count of misses on, the link is up if and only if at no event the consecutive misses times the interval in ms had reached the timeout in force; until then the 16-bit counter equals the true count, modulo 2^16 only while the interval is 0 ms in sixteen bits |
| `Supervision.SupervisedFromTheStart` | stack/controller/ble_controller_common.c:784-798 | so it is in every run from a new link, whatever its CONNECT_REQ asked for |
| `Timing.SupervisedAsAsked` | stack/controller/ble_controller_common.c:718-739 | in every run from a new link, in the units of its CONNECT_REQ and of the octets of every update learned: the link is up if and only if no event found misses times interval * 125 / 100 ms to have reached 10 ms times the timeout in force, both modulo 2^16 |
| `Timing.SupervisedWithoutUpdate` | stack/controller/ble_controller_common.c:784-798 | with an interval and a timeout of 1 to 3200 units and no update, misses * (interval * 125 / 100) against 10 * timeout, without any wrap-around |
| `Timing.AnchorsAsAsked` | stack/controller/ble_controller_common.c:124-146 | the anchors of a link that nothing re-anchors, from its CONNECT_REQ through the octets of an update: 1250 us for every unit of interval and offset asked for, modulo 2^32 |
| `Timing.PhysAsAnnounced` | stack/controller/ble_controller_common.c:224-259 | by the octets of a PHY_UPDATE_IND: PHYs other than 1 and 2 are ignored, two different ones end the link, any other is in force from the event after its instant on; 0 keeps the PHY in use |
| `Hop.UsedIsAscending` | stack/controller/ble_controller_common.c:167-190 | the remap table is exactly the used channels, ascending, each once |
| `Hop.RemapIsChannels` | stack/controller/ble_controller_common.c:167-190 | an empty map stands for all 37 channels, any other for its own |
| `Hop.TunedInMap` | stack/controller/ble_controller_common.c:277-296 | an event is tuned to a channel of the map in force, or to the unmapped channel itself when the map is empty |
| `Hop.TunedByCounting` | stack/controller/ble_controller_common.c:277-296 | an unused channel is replaced by the used one that has exactly unmapped modulo n used channels below it, n being the number of used channels; a used one, or any when none is used, stands for itself |
| `Hop.StandsForOne` | stack/controller/ble_controller_common.c:287-290 | that rule determines the channel |
| `Hop.MapIsNumber` | stack/controller/ble_controller_common.c:167-190 | a channel is used if and only if its bit in the 37-bit little-endian number of the map's octets is set |
| `Hop.UnmappedClosedForm` | stack/controller/ble_controller_common.c:277-296 | the unmapped channel of the n-th event is last + (n + 1) * hop modulo 37 whatever channel maps are put in force |
| `Hop.EachChannelOnce` | stack/controller/ble_controller_common.c:277-296 | any 37 consecutive events use every unmapped channel exactly once, for every hop increment from 1 to 36 |
| `Hop.Increment` | stack/controller/ble_controller_common.c:799-803 | a requested increment of 0 is replaced by 5 and any other kept, so the increment is never a multiple of 37 |
| `Hop.MapTimeline` | stack/controller/ble_controller_common.c:518-525 | whenever a channel map is learned, the events before the one numbered by its instant use the old map and that event and all later ones the new one, each tuned by the remapping rule, for all 16-bit counters, and the hop sequence is not disturbed |
| `Hop.ChannelSelector.OnChannelMapInd` | stack/controller/ble_controller_common.c:518-525 | a channel map long enough replaces the pending one; a shorter one is ignored |
| `Hop.ChannelSelector.StartEvent` | stack/controller/ble_controller_common.c:744-748 | a map that is due is put in force before the event hops |
| `Hop.ChannelSelector.ApplyChannelMap` | stack/controller/ble_controller_common.c:167-190 | the in-place loops leave the remap table of the map in the five octets received, bits beyond the 37th ignored |
| `Hop.ChannelSelector.HopDataChannel` | stack/controller/ble_controller_common.c:277-296 | one hop adds the increment modulo 37 and tunes to the channel that stands for the result by the counting rule |
| `CtrlResults.NeverWaitsOnNothing` | stack/controller/ble_controller_central.c:225-323 | in every run from a new link: no procedure if and only if idle, every awaited response has its request in the slot or sent last, an awaited PHY instant is pending, each automatic stage has its own request outstanding (the last may rest on a pending PHY update), and stages only move forward |
| `CtrlResults.ActSound` | stack/controller/ble_controller_central.c:44-143 | each response, timer, queue or peer action keeps that invariant |
| `CtrlResults.AnswerMovesOn` | stack/controller/ble_controller_central.c:44-95 | an answered request, supported or not, moves the automatic sequence on; an answered PHY request waits for a pending instant |
| `CtrlResults.PhyInstantEndsSequence` | stack/controller/ble_controller_central.c:111-125 | the instant of a PHY update ends the sequence |
| `CtrlResults.VoidTimeout` | stack/controller/ble_controller_common.c:261-275 | a non-zero supervision timeout is 0 ms in sixteen bits if and only if it is 32768 units |
| `CtrlResults.UpdatesStayAheadExactly` | stack/controller/ble_controller_central.c:325-360 | in every run from a new link, every connection update in progress has its instant still ahead throughout if and only if none of the actions started one with a timeout of 32768 units or brought a void update from the peer |
| `CtrlResults.UpdateLostExactly` | stack/controller/ble_controller_central.c:325-360 | and of the single actions exactly those two lose the instant |
| `CtrlResults.StuckForGood` | stack/controller/ble_controller_central.c:325-360 | after such a start the procedure waits for an instant that never comes and every later connection update is refused, until the link ends or the peer sends an update |
| `CtrlResults.StuckIsReachable` | stack/controller/ble_controller_central.c:325-360 | a peer that supports none of the automatic procedures brings a new link to where such an update starts and is stuck |
| `CtrlResults.StartedUpdateTogether` | stack/controller/ble_controller_central.c:325-360 | the connection update the central starts announces, six events ahead, exactly the parameters asked for, and is in force on both ends in the same event when the peripheral processes it before the instant |
| `CtrlOrder.AsksInOrder` | stack/controller/ble_controller_central.c:225-323 | in every run of a new link whose requests are answered only once they have left, the requests are the feature, the data-length and the PHY request, octet by octet, in that order and once each; when the sequence is done all three have been sent, unless the peer changed the PHY itself |
| `CtrlOrder.WaitsUntilAnswered` | stack/controller/ble_controller_central.c:44-125 | while the link is up, a request for features, data length or PHY waits on, in every state and whatever else happens, until exactly its own long enough response or an unknown-response naming its opcode |
| `CtrlOrder.PhyRequestNeedsQuiet` | stack/controller/ble_controller_central.c:186-223 | in every state and whatever happens, a PHY request enters the slot only while no PHY change is pending |
| `CtrlOrder.PhyRequestFollows` | stack/controller/ble_controller_central.c:225-323 | when the data-length request is answered or refused and the slot is free, the PHY request enters it at once if and only if no PHY change is pending; otherwise the sequence waits in its last stage with no procedure running |
| `CtrlResults.AnsweredPhyTogether` | stack/controller/ble_controller_central.c:362-391 | the PHY update by which the central answers a PHY response is announced six events ahead and takes effect on both ends in the same event: 2M when both directions of the response name it, else 1M |
| `CentralControl.CentralControl.AutoAdvance` | stack/controller/ble_controller_central.c:225-280 | the recursive stage machine in place computes the specified state |
| `CentralControl.CentralControl.AutoCompleteWith` | stack/controller/ble_controller_central.c:294-323 | a completed procedure advances the stage that waited for it and no other |
| `CentralControl.CentralControl.RequestProcedure` | stack/controller/ble_controller_central.c:145-223 | a request is queued exactly when connected, no procedure runs, the slot is free and, for PHY, no update is pending |
| `CentralControl.CentralControl.OnFeatureRsp` | stack/controller/ble_controller_central.c:44-58 | a feature response ends its procedure and advances the stage that waited for it |
| `CentralControl.CentralControl.OnLengthRsp` | stack/controller/ble_controller_central.c:60-74 | a long enough length response does the same for the data-length update |
| `CentralControl.CentralControl.OnSlotTaken` | stack/controller/ble_controller_common.c:399-413 | a request leaves the slot when the radio takes it, and is then the last one sent |
| `CentralControl.CentralControl.OnUnknownRsp` | stack/controller/ble_controller_central.c:76-95 | only the opcode awaited ends the procedure |
| `CentralControl.CentralControl.OnPhyRsp` | stack/controller/ble_controller_central.c:362-391 | answers with the PHY update it has just scheduled |
| `CentralControl.CentralControl.StartConnUpdate` | stack/controller/ble_controller_central.c:325-360 | started exactly under the checks of the source, with the announced update scheduled |
| `CentralControl.CentralControl.OnTimerEvent` | stack/controller/ble_controller_common.c:701-770 | clock, instants and link loss drive the procedure state as specified |
| `AdData.ParseIsPrefix` | stack/controller/ble_controller_central.c:443-474 | on arbitrary octets the structures read, encoded again, are the data up to where reading stops |
| `AdData.ParseEncode` | stack/controller/ble_controller_central.c:443-474 | structures followed by anything that stops the reader are read back exactly |
| `AdData.ParseCharacterized` | stack/controller/ble_controller_central.c:443-474 | parsing yields ss if and only if the data is ss encoded followed by a stopping tail |
| `AdData.AdvertisedRoundTrip` | stack/controller/ble_controller_peripheral.c:29-50 | what a receiver parses from built data is exactly the structures that fitted, in order, within 31 octets |
| `AdRuntime.AdBuffer.AddStructure` | stack/controller/ble_controller_peripheral.c:29-50 | appends a structure exactly when it fits; the buffer always encodes what fitted so far |
| `AdRuntime.AdBuffer.AddAdvData` | stack/controller/ble_controller_peripheral.c:205-229 | adds everything configured in the source's order, the short or complete name, the UUID list of the right kind, service and manufacturer data, transmit power |
| `AdRuntime.BuildAdvData` | stack/controller/ble_controller_peripheral.c:231-276 | for every configuration the built data is at most 31 octets and parses to the fitted structures, flags first in an advertisement |
| `AdRuntime.NextStructure` | stack/controller/ble_controller_central.c:443-474 | stops exactly where no whole structure follows; slices stay inside the data |
| `AdRuntime.MatchesName` | stack/controller/ble_controller_central.c:476-511 | true if and only if some short or complete name structure equals the non-empty filter name |
| `AdRuntime.ContainsUuid` | stack/controller/ble_controller_central.c:513-553 | true if and only if some well-formed UUID list of the two kinds has the UUID as an entry |
| `AdData.FittedIsGreedy` | stack/controller/ble_controller_peripheral.c:29-50 | each structure is taken if and only if it fits into 31 octets behind those taken before it |
| `AdData.WantedMeans` | stack/controller/ble_controller_peripheral.c:205-229 | there is one structure for everything configured, in the order name, UUID, service data, manufacturer data, power, and each has the type octet and the value that say so; a UUID list is complete exactly when there is one service |
| `AdData.ReceiverLearns` | stack/controller/ble_controller_peripheral.c:205-229 | so what a receiver parses from the data is only what was configured |
| `ScanDecisions.AdvertisedUuidMatches` | stack/controller/ble_controller_central.c:555-576 | the data a service UUID fitted into matches a scanner's filter for it, in either width |
| `ScanDecisions.AdvertisedNameMatches` | stack/controller/ble_controller_central.c:476-511 | and so does the name, full or shortened |
| `ScanResults.ConnectsOnlyToMatches` | stack/controller/ble_controller_central.c:908-983 | in every run each connection request follows a connectable advertisement of the same address, and that address has satisfied the filter in force in that advertisement or in a scan response received since the filter was set, the advertisement that response answers having been the peer's and connectable; a connection is to the peer of the last request |
| `ScanDecisions.ConnectsExactlyToMatches` | stack/controller/ble_controller_central.c:926-983 | in every run an advertisement heard is followed at once by the decision to connect if and only if it is ADV_IND or ADV_DIRECT_IND and matches the filter in force, or its sender qualified by a scan response since when there has been no newer qualifying response of another peer, no other filter, decision or stop; with the radio off the request is on the air, or an active scanner asks a scannable advertiser, or it rests |
| `ScanDecisions.NotesExactlyTheResponse` | stack/controller/ble_controller_central.c:876-924 | a scan response is taken if and only if it comes from the last advertiser heard |
| `ScanDecisions.ResponseLeadsToLink` | stack/controller/ble_controller_central.c:917-948 | a peer that matches only in its scan response is asked for it, and connected to when heard again, for every filter and data |
| `ScanDecisions.FilterAsks` | stack/controller/ble_controller_central.c:578-661 | a filter matches if and only if the sender has the address, some name structure of type 0x08 or 0x09 is the name, and some UUID list of types 0x02, 0x03 or 0x06, 0x07 has the UUID as an entry, each only if it is asked for |
| `ScanDecisions.InstallsExactly` | stack/host/gap/ble_gap.c:114-150 | a filter is installed if and only if it asks for something, its name has 1 to 31 octets and its 16-bit UUID is not 0; otherwise nothing changes |
| `ScanDecisions.StopsForGood` | stack/controller/ble_controller_central.c:1050-1063 | once stopped, whatever else happens, nothing is heard or decided until scanning is started again |
| `ScanDecisions.ListensWhenStarted` | stack/controller/ble_controller_central.c:1065-1094 | a resting scanner listens when started, to connect only with a filter, and at each interval while it scans; a quiet window ends what it waited for but not the scan |
| `ScanResults.NewFilterRevokes` | stack/host/gap/ble_gap.c:114-163 | in every run a decision made after a filter was set rests on something its peer sent since then that satisfies it, and after the filter was cleared there is none until another is set |
| `ScanResults.OnlyAPendingRequestGoesOut` | stack/controller/ble_controller_central.c:1197-1249 | after any run and a call that changes the filter, as long as nothing is decided afterwards, a link comes up if and only if a request was pending or on the air at the call and the radio switched off as often as was left before a stop or a closing window; it is a link to the peer chosen before the call |
| `ScanResults.OldRequestGoesOut` | stack/controller/ble_controller_central.c:1197-1249 | both occur: runs in which the filter is replaced by one for another address before the request is sent, or while it is, and the link to the first comes up |
| `ScanResults.ActSound` | stack/controller/ble_controller_central.c:1251-1293 | every call and radio event keeps the scan invariant |
| `Scanner.Scanner.FilterMatches` | stack/controller/ble_controller_central.c:578-661 | the conjunction of exactly the tests the filter asks for |
| `Scanner.Scanner.SetScanFilter` | stack/host/gap/ble_gap.c:114-150 | accepted exactly for usable filters, and then earlier candidates are forgotten |
| `Scanner.Scanner.ClearScanFilter` | stack/host/gap/ble_gap.c:152-163 | the filter and earlier candidates are forgotten |
| `Scanner.Scanner.OnCrcOk` | stack/controller/ble_controller_central.c:926-983 | the decision on an advertisement in place: candidate, own data, scan request, or nothing |
| `Scanner.Scanner.OnScanRspCrcOk` | stack/controller/ble_controller_central.c:876-924 | only the response asked for counts, and it makes a candidate only if it matches |
| `Scanner.Scanner.OnRadioDisabled` | stack/controller/ble_controller_central.c:1197-1249 | the scan phase machine in place |
| `Scanner.Scanner.ConnectTo` | stack/host/gap/ble_gap.c:391-416 | connecting is scanning with a filter for the address |
| `Scanner.Scanner.Stop` | stack/controller/ble_controller_central.c:1050-1063 | stopping forgets the candidate, the response awaited and any request |
| `Scanner.Scanner.OnWindowTimeout` | stack/controller/ble_controller_central.c:1005-1023 | the window closes only on a receiver with nothing to finish |
| `GattBuilder.Builder.Init` | stack/host/gatt/ble_gatt_server.c:841-893 | init succeeds if and only if the service and characteristic limits and validity checks hold, never because the 34 slots are full, and then the table is the specified one |
| `GattBuilder.Builder.AddAttr` | stack/host/gatt/ble_gatt_server.c:149-177 | a slot is filled exactly when there is room and the entry is valid |
| `GattBuilder.Builder.AddCharacteristic` | stack/host/gatt/ble_gatt_server.c:716-802 | declaration, value and, when needed, CCCD are appended exactly for a valid characteristic within the limit |
| `GattBuilder.Builder.AddServiceWithChars` | stack/host/gatt/ble_gatt_server.c:679-714 | succeeds exactly for a valid service whose characteristics still fit |
| `GattTable.Table` | stack/host/gatt/ble_gatt_server.c:633-839 | every accepted table has between 6 and 34 entries |
| `TableFacts.TableIsLinked` | stack/host/gatt/ble_gatt_server.c:633-893 | entry i has handle i + 1; every value follows a declaration with its handle, UUID, properties and permissions; CCCDs exist exactly after values that notify or indicate; no characteristic has two values or two CCCDs |
| `TableFacts.TableHasFixedServices` | stack/host/gatt/ble_gatt_server.c:804-839 | every table begins with service 0x1800, its name and appearance behind their declarations, and service 0x1801 |
| `TableFacts.AcceptsExactly` | stack/host/gatt/ble_gatt_server.c:841-893 | the builder accepts a name of up to 20 octets, up to 4 services and 8 characteristics, each service with one at least, values of 1 to 244 octets and only the five supported properties |
| `TableFacts.TableHasEveryCharacteristic` | stack/host/gatt/ble_gatt_server.c:716-802 | each declared characteristic has its declaration, its value with the permissions its property bits say, and a CCCD if and only if it can notify or indicate, in the range of its own service |
| `TableFacts.TableHasEveryService` | stack/host/gatt/ble_gatt_server.c:679-714 | each declared service has its declaration, with its UUID, where the one before it ends |
| `TableFacts.CharWithinService` | stack/host/gatt/ble_gatt_server.c:804-839 | the entries of a characteristic lie between its service and the next |
| `BuiltDiscovery.ServicesOfTable` | stack/host/gatt/ble_gatt_server.c:804-839 | when no characteristic reuses 0x2800 the primary services of the table are the two fixed ones and the declared ones, in order |
| `BuiltDiscovery.RangesPartition` | stack/host/gatt/ble_gatt_server.c:220-243 | every handle lies in the range of exactly one primary service |
| `DiscoveryResults.EndHandleFacts` | stack/host/gatt/ble_gatt_server.c:220-243 | a service reaches to the handle before the next service, or to the end of the table |
| `Uuids.FromBytesEncode` | stack/core/ble_uuid.c:46-75 | a UUID keeps its octets on the air, and all but vendor UUIDs come back as they were |
| `Uuids.VendorOctets` | stack/core/ble_uuid.c:46-75 | a vendor UUID on the air is its base but for octets 12 and 13, which hold its short form |
| `Bytes.EncodeDecode` | stack/core/ble_runtime.c:76-85 | the two little-endian codecs are inverse to each other |
| `AttServer.Server.ServiceEndHandle` | stack/host/gatt/ble_gatt_server.c:220-243 | the loop returns the end handle of the specification |
| `AttServer.Server.FindInfo` | stack/host/gatt/ble_gatt_server.c:245-294 | the pass answers with the first entries of one UUID width that fit, or not-found |
| `AttServer.Server.FindByTypeValue` | stack/host/gatt/ble_gatt_server.c:296-349 | the pass answers with ranges of the services that have the value, as many as fit |
| `AttServer.Server.ReadByGroupType` | stack/host/gatt/ble_gatt_server.c:351-419 | the pass answers with the services of the first one's width, the others skipped, as many as fit |
| `AttServer.Server.ReadByType` | stack/host/gatt/ble_gatt_server.c:421-495 | the same for readable attributes of a type |
| `AttServer.Server.ProcessDiscovery` | stack/host/gatt/ble_gatt_server.c:1026-1145 | every request PDU, malformed ones included, gets the specified answer |
| `AttOctets.AnswersHoldWhatFits` | stack/host/gatt/ble_gatt_server.c:245-495 | an answer is its opcode and the first wanted attributes as long as the very first, all or as many as fit, and error 0x0A for the start of the range if that is none |
| `AttOctets.EntryInOctets` | stack/host/gatt/ble_gatt_server.c:245-495 | an entry is a handle, then the end of the service, the value or the UUID |
| `AttOctets.ErrorsInOctets` | stack/host/gatt/ble_gatt_server.c:1065-1145 | malformed requests are answered with error 0x04, unknown ones with 0x06, other groups than primary services with 0x10, other types in find-by-value with 0x0A |
| `AttOctets.FindsExactly` | stack/host/gatt/ble_gatt_server.c:245-495 | of the attributes in the range a request finds exactly those it asks for: primary services, those with the given UUID octets, readable attributes of the given type, or all |
| `AttOctets.QueriesInOctets` | stack/host/gatt/ble_gatt_server.c:1065-1145 | every well-formed discovery request, trailing octets or not, is answered as that query over its range |
| `AttOctets.ByUuidReportsExactly` | stack/host/gatt/ble_gatt_client.c:250-292 | discovery by UUID reports a service if and only if it is in the range and its declaration has those UUID octets, at every MTU |
| `AttOctets.RequestsInOctets` | stack/host/gatt/ble_gatt_client.c:143-195 | the client's requests octet by octet: opcode, remaining range, UUID |
| `AttOctets.ClientReacts` | stack/host/gatt/ble_gatt_client.c:481-514 | attribute-not-found for its own request completes a procedure and any other error ends it as one; answers of the wrong shape end it with 0x04; what it did not ask for is ignored; every other answer is reported and followed up or completes it |
| `GattClient.GattClient.DiscoverPrimaryServicesByUuid` | stack/host/gatt/ble_gatt_client.c:580-602 | started exactly when ready, idle, the UUID valid and the queue accepts; otherwise nothing changes |
| `GattClient.GattClient.DiscoverPrimaryServices` | stack/host/gatt/ble_gatt_client.c:560-578 | the same over the whole handle range |
| `GattClient.GattClient.DiscoverCharacteristics` | stack/host/gatt/ble_gatt_client.c:604-626 | the same for a proper handle range |
| `GattClient.GattClient.DiscoverDescriptors` | stack/host/gatt/ble_gatt_client.c:628-650 | the same for descriptors |
| `GattClient.GattClient.Continue` | stack/host/gatt/ble_gatt_client.c:234-247 | goes on after the last handle, or completes at the end of the range, on handle 0 and when the follow-up request is refused |
| `GattClient.GattClient.HandleServices` | stack/host/gatt/ble_gatt_client.c:197-248 | the offset loop reports the parsed items and continues as specified |
| `GattClient.GattClient.HandleServicesByUuid` | stack/host/gatt/ble_gatt_client.c:250-292 | the same, with the malformed lengths refused |
| `GattClient.GattClient.HandleCharacteristics` | stack/host/gatt/ble_gatt_client.c:294-346 | the same for characteristic declarations |
| `GattClient.GattClient.HandleDescriptors` | stack/host/gatt/ble_gatt_client.c:348-407 | the same for descriptors of either UUID width |
| `GattClient.GattClient.HandleError` | stack/host/gatt/ble_gatt_client.c:481-514 | attribute-not-found for the procedure's own request completes it, any other error ends it as an error |
| `GattClient.GattClient.Process` | stack/host/gatt/ble_gatt_client.c:746-893 | a response is handled only by the procedure it belongs to; a running procedure always has a proper range left |
| `DiscoveryRun.AnswerToRequest` | stack/host/gatt/ble_gatt_client.c:143-195 | the server takes each request of the client as the query it was meant to be |
| `DiscoveryRun.ParsePage` | stack/host/gatt/ble_gatt_client.c:217-232 | the client's parsing of what the server prints gives back its entries |
| `DiscoveryRun.ExchangePage` | stack/host/gatt/ble_gatt_client.c:234-247 | one exchange reports exactly a page and asks on after its last handle |
| `DiscoveryResults.DiscoveryIsSound` | stack/host/gatt/ble_gatt_client.c:197-407 | every procedure against every sound table, range and MTU from 23 up ends idle with one completion event, having reported real entries of the range in strictly increasing handle order |
| `DiscoveryResults.Progress` | stack/host/gatt/ble_gatt_client.c:234-247 | each follow-up request starts later within the range and asks for exactly what the page left over |
| `DiscoveryResults.ByUuidIsExact` | stack/host/gatt/ble_gatt_client.c:250-292 | discovery by UUID reports exactly the primary services with those UUID octets, once each, in order, at every MTU |
| `DiscoveryResults.DiscoveryIsComplete` | stack/host/gatt/ble_gatt_server.c:270-290 | everything in range is reported when entries of equal encoded length are contiguous |
| `DiscoveryResults.CompleteOnlyIfGrouped` | stack/host/gatt/ble_gatt_server.c:395-415 | where one response can hold all entries of a length, discovery is complete if and only if they are contiguous |
| `BuiltDiscovery.AllServicesDiscovered` | stack/host/gatt/ble_gatt_server.c:351-419 | on a built table without lookalike characteristics, discovery reports all services and nothing else at every MTU from 23 to 247 if and only if the application declared those with 16-bit UUIDs before those with 128-bit UUIDs |
| `BuiltDiscovery.ReportedRanges` | stack/host/gatt/ble_gatt_server.c:220-243 | each of them with its range: from its declaration to just before the next service, the last to the end of the table, where the builder put them |
| `BuiltEntries.EntriesDiscovered` | stack/host/gatt/ble_gatt_server.c:421-495 | in any range of a built table, discovery reports all attributes, or all characteristics when none reuses 0x2803, at every MTU from 23 to 247 if and only if those with UUIDs of one width stand together |
| `ValueResults.PushesAreDisciplined` | stack/host/gatt/ble_gatt_server.c:895-1024 | over every run: CCCDs hold allowed bits only, enable and disable events per bit alternate starting with enabled within a connection, values are pushed only while enabled, and no second indication before a confirmation or reset |
| `ValueResults.InvWrite` | stack/host/gatt/ble_gatt_server.c:526-631 | every accepted or refused write, with or without response, keeps that discipline |
| `ValueResults.InvPush` | stack/host/gatt/ble_gatt_server.c:978-1024 | so does every push, accepted by the queue or not |
| `ValueResults.ChangeNoted` | stack/host/gatt/ble_gatt_server.c:606-622 | an event is raised exactly when its CCCD bit changes |
| `ValueReads.ReadAfterWrite` | stack/host/gatt/ble_gatt_server.c:497-631 | in every state with the invariant, an allowed write is read back, as much as there is room for, every other read is answered as before, and a write that is not allowed changes no read |
| `ValueReads.WritesAreTakenExactly` | stack/host/gatt/ble_gatt_server.c:526-631 | a write is taken if and only if the attribute is writable, the data fits, and the declared property bits allow it; then one value is the data, the application is told of it or of each configuration bit that changed, and a request is answered 0x13; otherwise nothing changes and the answer has the reason |
| `ValueReads.ReadsAnswer` | stack/host/gatt/ble_gatt_server.c:497-524 | a read changes nothing and answers 0x0B and the value, as much as there is room for, or 0x02 or 0x01 with the handle |
| `ValueReads.PushesCarryTheValue` | stack/host/gatt/ble_gatt_server.c:909-971 | a value is pushed if and only if its declared property and its configuration bit are set, it fits the MTU whole and no indication waits; the PDU parses back to 0x1B or 0x1D, the handle and the value |
| `ValueReads.LengthsMatter` | stack/host/gatt/ble_gatt_server.c:1036-1140 | a read, write or MTU request too short for its fields is refused with 0x04 and changes nothing, a short command or a longer confirmation does nothing, and octets after a read or MTU request are ignored |
| `ValueReads.SmallerMtuCounts` | stack/host/gatt/ble_gatt_server.c:1041-1060 | an MTU request leaves exactly the smaller of the two limits in force, changes nothing else, and its answer tells the server's limit |
| `ValueReads.ConfirmationFrees` | stack/host/gatt/ble_gatt_server.c:1132-1137 | a confirmation changes nothing but that the next indication is no longer held back |
| `ValueReads.NothingPushedAtFirst` | stack/host/gatt/ble_gatt_server.c:895-908 | a new connection has the MTU 23, waits for no confirmation, and no value of it is pushed |
| `ValueReads.ConnectionsStartAfresh` | stack/host/gatt/ble_gatt_server.c:895-908 | its reads find every value as the last connection left it and every configuration 00 00 |
| `ValueServer.ValueServer.CheckWrite` | stack/host/gatt/ble_gatt_server.c:526-595 | a write is refused in the order and with the codes of the source |
| `ValueServer.ValueServer.WriteAttr` | stack/host/gatt/ble_gatt_server.c:596-630 | an accepted write changes that one value in place and raises the specified events |
| `ValueServer.ValueServer.ReadRequest` | stack/host/gatt/ble_gatt_server.c:497-524 | a read returns the value cut to its maximum and to the response size |
| `ValueServer.ValueServer.BuildValuePdu` | stack/host/gatt/ble_gatt_server.c:909-971 | a value PDU is built exactly with property, configuration bit, room and no indication awaited |
| `ValueServer.ValueServer.PushCharacteristic` | stack/host/gatt/ble_gatt_server.c:978-1024 | an indication is awaited only once the queue has taken it |
| `ValueServer.ValueServer.ResetConnectionState` | stack/host/gatt/ble_gatt_server.c:895-907 | clears every client configuration, the MTU and the pending flag, and nothing else |
| `ValueServer.ValueServer.FindAttr` | stack/host/gatt/ble_gatt_server.c:179-192 | the search by handle is the lookup by position |
| `ValueServer.ValueServer.ProcessPdu` | stack/host/gatt/ble_gatt_server.c:1026-1145 | the whole dispatcher in place: new state and response for every PDU |
| `Mtu.BothEndsAgree` | stack/host/gatt/ble_gatt_client.c:794-819 | after a client-initiated exchange both ends hold the same MTU, the smaller of the clamped wish and the server's limit, within 23 to 247 |
| `Mtu.Clamp` | stack/host/gatt/ble_gatt_client.c:34-42 | what is asked for is within bounds, and a wish within bounds is kept |
| `ValueSpec.LocalMaxMtu` | stack/host/gatt/ble_gatt_server.c:105-129 | the server's limit is the largest MTU within 23 to 247 that fits, with four octets of header, the smaller data length in force |
| `Mtu.ResponseFits` | stack/host/gatt/ble_gatt_server.c:1026-1145 | no response is longer than the MTU or its buffer, whatever the request |
| `Mtu.PushFits` | stack/host/gatt/ble_gatt_server.c:909-946 | no notification or indication is longer than the MTU |
| `Mtu.FitsDataPacket` | stack/controller/ble_controller_common.c:629-632 | what fits the MTU always passes the 251-octet check, so only a full queue refuses it |
| `Mtu.EverythingSentFits` | stack/host/gatt/ble_gatt_server.c:1026-1063 | in every state a run can reach the MTU is within 23 to 247 and every response fits it and a data packet |
| `Mtu.BuiltShape` | stack/host/gatt/ble_gatt_server.c:841-893 | all this applies to every table the builder makes |
| `L2cap.FrameRoundTrip` | stack/host/l2cap/ble_l2cap.c:87-107 | the receiver gets the channel and payload the sender framed |
| `L2cap.TakenExactly` | stack/host/l2cap/ble_l2cap.c:96-109 | a packet is taken if and only if it holds the payload it declares or declares 65532 octets or more, and the payload of one taken lies in the packet if and only if it declares fewer |
| `L2cap.ActedOnExactly` | stack/host/l2cap/ble_l2cap.c:26-43 | a connection-parameter request is acted on if and only if a central hears it in a frame of at least four octets, it declares at least eight octets and as many as the frame holds, or 65532 or more, and the answer has room |
| `L2cap.NothingElseIsActedOn` | stack/host/l2cap/ble_l2cap.c:87-127 | a packet gets an answer if and only if it is a request acted on, which is on channel 5; any other changes nothing |
| `L2cap.ActedOnIsReceivedExactly` | stack/host/l2cap/ble_l2cap.c:26-58 | a signalling request acted on lies wholly in its frame and the frame in the packet if and only if both declared lengths are below 65532 |
| `L2cap.OnlyThePacketCounts` | stack/host/l2cap/ble_l2cap.c:87-127 | then what is done and answered does not depend on anything beyond the packet |
| `L2cap.HeaderOnlyIsActedOn` | stack/host/l2cap/ble_l2cap.c:33-48 | an eight-octet packet whose request declares 65532 octets is acted on, with the four fields read from beyond its end |
| `L2cap.PreferenceReachesCentral` | stack/host/l2cap/ble_l2cap.c:17-85 | a peripheral's framed connection-parameter request makes the central schedule exactly the parameters asked for, and is answered with its identifier and with accepted if and only if the update started |
| `L2cap.AnswerTells` | stack/host/l2cap/ble_l2cap.c:49-56 | the answer parses back as the response to that request: 0 if and only if the link is up, the parameters are a proper range and a timeout and nothing is in the way, and then the update has started; 1 otherwise, and then nothing has changed |
| `L2cap.IdentifiersCycle` | stack/host/l2cap/ble_l2cap.c:72-76 | identifiers run through 1 to 255 and begin again |
| `L2cap.NextIdentifier` | stack/host/l2cap/ble_l2cap.c:72-76 | signalling identifiers are never 0 and never repeat at once |
| `L2cap.Signaling.BuildParamRequest` | stack/host/l2cap/ble_l2cap.c:62-85 | the buffer is filled with the request of the new identifier |
| `L2cap.ProcessSignaling` | stack/host/l2cap/ble_l2cap.c:17-60 | in place: a request is acted on by a central when its declared length is at least 8 and, in sixteen bits, fits; everything else is silently ignored |
| `L2cap.ProcessDataPdu` | stack/host/l2cap/ble_l2cap.c:87-127 | a data PDU whose length fits in sixteen bits reaches the signalling handler on its channel; no other changes the control procedures |

## Left out

- Radio, timer, PPI and interrupt registers, PHY and data-rate settings, busy waits: only the events they raise.
- Interrupt preemption: handlers and calls are atomic, and every event ends before the next timer tick.
- A radio window brings one packet: the receiver disables itself after it, and an old window's packet never arrives in the next.
- One vendor UUID base is in force on both ends of a discovery.
- The deferred event queue and application callbacks: notifications are log entries that are never dropped.
- The guard time a peripheral opens its receiver early, and the compare register: only the anchor tick is modelled.
- Checks that the host role is configured: `ready` parameters stand for them where a result depends on them.
- What a link leaves behind after it ends: runs of the link layer and of scanning end with the connection.
- The peer's feature set, data-length and version replies: single branches with fixed octets.
- ATT payloads declaring 65532 octets or more, which the server and client handlers would read past the packet: `ProcessPdu` and `Process` get payloads that are there.
- ConnRuntime.Runtime.QueueL2capPayload: payloads of 65532 octets or more are excluded, because the sixteen-bit sum in the source wraps there.
- Response and request buffers of ATT grow as sequences instead of being filled in place.
- Attribute values longer than the declared maximum: `Sound` tables hold at most the maximum, to which the source cuts them.
- ValueResults.PushesAreDisciplined: assumes that no client asks for an MTU below 23, which ATT does not allow.
- The client's read, write, value-notification and server-initiated MTU paths: they hold no state the discovery results depend on.
- DiscoveryResults.DiscoveryIsSound: assumes that follow-up requests are queued; `GattClient.Continue` states what happens when one is not.
- CtrlResults.StuckForGood: says nothing about a peripheral that sends an update of its own, which could end the wait.
- Advertising with connectable and scannable requests at the peripheral, the advertising timer and the contents of scan reports.
- The connection request's access address, CRC seed and channel map, and the device's own address: values taken from the device.
