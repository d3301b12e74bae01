# Tracker power control: a model of its protocols, schedulers and protection logic

This project models the parts of the Mu2e tracker low- and high-voltage tools that carry state, and proves what
they keep. Each module follows one component of the repository. Code that changes things in place is a class or a
method with loops, proved against specification functions; what the system promises is then proved about those
functions, for every input, every run and every interleaving. Sockets, UARTs, pins, clocks, power readings and
notification services are inputs chosen by the environment.

| module | component |
|---|---|
| `Bits`, `Fcs`, `Packets`, `FrameStreams` | RS485 v2 frames: FCS-16 and byte stuffing (RFC 1662, section 3.1, section 4.2 and appendix C.2), the packet codec, the incremental parser |
| `BusSessions`, `Exchanges` | persistent transaction IDs and reply holdoff, one request and its reply, address discovery |
| `FairQueues` | round-robin admission to the UART |
| `LvhvWire`, `LvhvPython`, `LvhvC` | the LVHV message format and its two implementations |
| `HvRamp` | the high-voltage ramp of the client |
| `DacTransfer` | the bit-serial DAC transfer and the cache of acknowledged settings |
| `RocMonitors`, `DiscoveryHistories`, `PowerOnDiscoveries`, `TripCounters` | protection and notification state machines |
| `BinaryHeaps`, `JsonComments` | the command queue's heap, the comment stripper of the ramp configuration |
| `Options`, `Sequences` | what several of these share |

## Where the code falls short of what one would expect of it

- A ramp does not always write within 50 counts of the last acknowledged value. `_timed_dac_set` skips a write
  silently while the HV lock reads set, and `_take_dac_steps` counts the step as taken. Leaving out a 0 after a trip on
  the way down, a write stays within 50 exactly when its step times one plus the writes skipped since the last
  acknowledged one does, or when it goes down from a value of 50 or less (`HvRamp.RampStepWithinBoundIff`). It holds for every
  write if the lock never reads clear again once set (`HvRamp.NeverClearedStepsAreSmall`), and fails when the lock reads
  set for one write only (`HvRamp.LockBlipDoublesTheStep`). Nothing in the repository clears the lock.
- The expected list of discovered panels is not always in order: loading checks the saved addresses but keeps their
  order until the first scan with the power verified on (`DiscoveryHistories.KnownInOrderIff`). A file that lists panel
  2 before panel 1 is such an input (`DiscoveryHistories.LoadedOutOfOrder`).
- The 16-bit trip counters can wrap within a call for a requirement above 65336, and only then
  (`TripCounters.NoWrapIff`).
- The channel to trip is chosen by a sum meant to be that of the 25 latest readings. The position in the ring buffer is
  moved on before the sum starts from it, so the reading of 50 calls ago stands in for the one of 25 calls ago, and the
  sum is the one meant exactly when those two are equal (`TripCounters.SumIsOfLatestIff`). An old spike on one channel
  can outweigh another channel that is over its threshold now (`TripCounters.SpikeOutweighs`).
- `recv_block` in `Messages.c` reads a block's header before it looks at the byte budget, so the server may take up to
  five bytes more than the message limit from a stream it then refuses: exactly when a block is still due, less room is
  left than its header takes, and the stream goes beyond the limit (`LvhvC.OvershootIff`, with an input in
  `LvhvC.OvershootingStream`). The Python receiver never does (`LvhvPython.RecvMessage`). What the two accept is the
  same.
- A DAC transfer that fails may have been heard whole, so a setting that was not acknowledged may be in effect: exactly
  when the last of the 75 pin writes failed, or the last clock-low did and that write or the recovery's clock-low
  reached the pins, or the last clock-high did and both of those writes reached them. In every other case the converter
  has heard less than the word (`DacTransfer.FailedWordDelivers`).

## Model

| member | source | states |
|---|---|---|
| Fcs.ComputeFcs16 | rs485-server/rs485.py:20-27 | the byte-wise nested loops compute the checksum defined bit by bit on the message's bit string |
| Fcs.ChecksIffResidue | rs485-server/rs485.py:20-27 | a body with its two trailing bytes checks exactly when the unfinalised register over all of it is 0xF0B8 |
| Fcs.BurstDetected | rs485-server/rs485.py:87-88 | every nonzero corruption within any 16 consecutive bits of a checked frame is detected |
| Fcs.TwoByteCorruptionDetected | rs485-server/rs485.py:87-88 | every nonzero corruption of two adjacent bytes is detected |
| Fcs.OddCorruptionDetected | rs485-server/rs485.py:87-88 | every corruption of an odd number of bits is detected |
| Packets.FrameBytes | rs485-server/rs485.py:30-38 | the loop yields the flags around the stuffed bytes |
| Packets.UnstuffStuff | rs485-server/rs485.py:30-38 | unstuffing undoes stuffing |
| Packets.StuffUnstuff | rs485-server/rs485.py:64-79 | whatever unstuffs is the stuffing of the result, so the stuffed form is canonical |
| Packets.EncodePacket | rs485-server/rs485.py:49-58 | a wire form for the valid packets and only those |
| Packets.DecodePacket | rs485-server/rs485.py:61-89 | all the checks of decoding, in order, give the specified packet or none |
| Packets.DecodeEncode | rs485-server/rs485.py:49-89 | decoding the encoding of a valid packet gives it back |
| Packets.EncodeDecode | rs485-server/rs485.py:61-89 | what decodes is a valid packet whose encoding is those very bytes |
| Packets.WireLayout | rs485-server/rs485.py:49-58 | what a valid packet is on the wire: each field at its place, low byte first, the payload, and a checksum that checks |
| Packets.CodecBijection | rs485-server/rs485.py:49-89 | a frame decodes to a packet if and only if it is that packet's encoding |
| Packets.WireLength | rs485-server/rs485.py:126 | no legal frame is longer than the parser's limit |
| Packets.CorruptionRejected | rs485-server/rs485.py:87-88 | a burst or odd corruption under the stuffing of a legal frame is always rejected |
| FrameStreams.FrameStream.Feed | rs485-server/rs485.py:139-154 | the parser object makes of each chunk, from whatever state, what the byte-wise machine does |
| FrameStreams.FeedAllAppend | rs485-server/rs485.py:139-154 | how the stream is cut into chunks does not matter |
| FrameStreams.StreamMeetsSpecification | rs485-server/rs485.py:139-154 | packets and bad-frame count are those of splitting the whole stream at the flags, dropping over-long stretches and decoding the rest |
| FrameStreams.Resynchronises | rs485-server/rs485.py:139-154 | from every state, a legal frame is the last packet emitted and at most one comes before it |
| FrameStreams.OneFrame | rs485-server/rs485.py:139-154 | a legal frame on a quiet line is that one packet |
| FrameStreams.EmittedIffPresent | rs485-server/rs485.py:139-154 | a packet is emitted if and only if it is valid and its encoding is a contiguous part of the input |
| BusSessions.BusSession.Open | rs485-server/rs485.py:168-200 | null without the lock or for a malformed or invalid state; otherwise the saved state with its holdoff waited out, or a first ID drawn for an empty file, and nothing changed on disk |
| BusSessions.BusSession.WaitReady | rs485-server/rs485.py:193-200 | returns only when the holdoff in memory is over |
| BusSessions.BusSession.Reserve | rs485-server/rs485.py:209-216 | waits, takes the next ID, and has the new ID and holdoff on disk before returning |
| BusSessions.BusSession.Complete | rs485-server/rs485.py:218-220 | ends the holdoff in memory and on disk |
| BusSessions.BusSession.ResponseWindow | rs485-server/rs485.py:222-226 | replaces the holdoff in memory and on disk by one from now |
| BusSessions.HoldoffAcrossCrashes | rs485-server/rs485.py:178-226 | in every run, through timeouts, failed writes, shortened windows, crashes and restarts, nothing is transmitted before the holdoff of an earlier unanswered transmission |
| BusSessions.RunInvariant | rs485-server/rs485.py:178-226 | in every reachable state, from any file, an unanswered transmission still in its holdoff is on disk and in memory, and the next ID follows the last one used |
| BusSessions.IdsRepeatEvery65536 | rs485-server/rs485.py:209-216 | in every run two reservations share an ID exactly when a multiple of 65,536 lies between them |
| Exchanges.FindAnswer | rs485-server/rs485.py:340-347 | the loop over responses stops at the first one of the right identity and length |
| Exchanges.PiBus.Listen | rs485-server/rs485.py:333-355 | however replies arrive in chunks, the outcome is that of the first answer in what is returned by reads begun before the deadline, late bytes included; only an answer ends the holdoff, and only the clock moves otherwise |
| Exchanges.PiBus.Exchange | rs485-server/rs485.py:312-355 | the driver is released on every exit; each outcome occurs under exactly its condition, with its time of transmission, the holdoff it leaves in memory and on disk, and its events in the run |
| Exchanges.PiBus.Start | rs485-server/rs485.py:168-191 | a process that opens the bus takes up the run of all processes before it where the file was left |
| Exchanges.PiBus.Ask | rs485-server/rs485.py:276-279 | every read adds one reservation to the run, under the next ID, with the outcome of its own exchange; on an honest line an answer is the reply to this very request |
| Exchanges.PiBus.ReadScalar | rs485-server/rs485.py:276-279 | with good arguments and UART, the value is low byte plus 256 times high byte of the first `RESPONSE` to this panel, transaction and command if its status is 0, and there is none otherwise; each failure is told apart, the holdoff left is that of its outcome, and on an honest line a value returned is the reply to this very request |
| Exchanges.ReplyIsRead | rs485-server/rs485.py:333-355 | a panel's reply, cut up between reads in any way, is the value of the read |
| Exchanges.HeardIs | rs485-server/rs485.py:333-336 | what is heard is what all reads begun before the deadline returned, in order and whole |
| Exchanges.PiBus.ReadPanelId | rs485-server/rs485.py:301-310 | with a good UART, the address if the first `CONTROL_RESPONSE` to this request has status 0 and names it, a problem if it says anything else, no response if there is none; with the holdoff left; a bad address reserves nothing |
| Exchanges.PiBus.Discover | rs485-server/rs485.py:527-563 | with other clients using the bus between probes, every address is probed once, in order, by a request of its own, and listed by what that probe found; any UART failure abandons the scan |
| Exchanges.LateReplyMatchesIff | rs485-server/rs485.py:341-343 | a late reply is taken for another request exactly when both ask the same and a multiple of 65,536 reservations lies between |
| Exchanges.EveryAnswerIsItsOwn | rs485-server/rs485.py:312-355 | if panels echo the identity and no reply is 65,536 or more reservations late, what ends the latest exchange of a run is a whole valid reply to that request |
| Exchanges.NothingSentEarly | rs485-server/rs485.py:178-226 | after any use of the bus object nothing it or an earlier process put on the wire came before the holdoff of an earlier unanswered request |
| FairQueues.FairQueue.NextClient | rs485-server/fair_queue.py:65-69 | the loop finds the class the round-robin order gives |
| FairQueues.FairQueue.EnterTurn | rs485-server/fair_queue.py:99-108 | with a request context, entering refuses, rejects or queues as the specified step does |
| FairQueues.FairQueue.EnterDirect | rs485-server/fair_queue.py:86-91 | without one, the call takes the device lock exactly when it is free, past whatever waits |
| FairQueues.FairQueue.LeaveDirect | rs485-server/fair_queue.py:92-95 | and gives it back, changing nothing else |
| FairQueues.FairQueue.PollTurn | rs485-server/fair_queue.py:110-131 | one pass of the wait loop, clean-up included, is the specified step |
| FairQueues.FairQueue.LeaveTurn | rs485-server/fair_queue.py:134-139 | leaving frees the bus and counts the turn |
| FairQueues.FairQueue.Close | rs485-server/fair_queue.py:78-81 | closing changes nothing but the flag |
| FairQueues.FairQueue.constructor | rs485-server/fair_queue.py:32-40 | a new queue is empty, with the first class next |
| FairQueues.StepKeepsInvariant | rs485-server/fair_queue.py:99-139 | every step keeps one active turn at most, the limits, order within a class and the conservation of tickets |
| FairQueues.FreshRunsAreSafe | rs485-server/fair_queue.py:99-139 | all of that holds in every run of a new queue |
| FairQueues.RunKeepsInvariant | rs485-server/fair_queue.py:99-139 | so does every run |
| FairQueues.NoTurnAfterClose | rs485-server/fair_queue.py:78-81 | after closing no turn starts, however the run goes on |
| FairQueues.ExactlyOneSelected | rs485-server/fair_queue.py:121-122 | when the bus is free and something waits, exactly one ticket passes the selection test |
| FairQueues.EntryIff | rs485-server/fair_queue.py:99-108 | refused exactly by a closed queue or a bus held outside it, turned away exactly by a full class or queue, otherwise queued last in its class |
| FairQueues.PassIff | rs485-server/fair_queue.py:110-131 | a pass leaves exactly for a closed queue, a deadline, a disconnection or a failing callback, counted as what it is; it starts exactly for the foremost ticket of an open queue on a free bus; otherwise nothing changes |
| FairQueues.ExactlyOneStarts | rs485-server/fair_queue.py:121-125 | when the queue is open, the bus free and something waits, exactly one ticket starts when polled: the head of the first nonempty class after the one served last |
| FairQueues.LeavingFreesBus | rs485-server/fair_queue.py:134-139 | the end of a turn leaves bus and device lock free and the queue as it was |
| FairQueues.StepLowersRank | rs485-server/fair_queue.py:108-131 | no step raises the rank of a waiting ticket and every turn that starts lowers it |
| FairQueues.BypassBound | rs485-server/fair_queue.py:108-131 | while the k-th ticket of a class waits at most 4k+3 turns start, under any interleaving |
| FairQueues.StartsInTheEnd | rs485-server/fair_queue.py:108-131 | once 4k+3 turns have started while it waits, the k-th ticket of a class starts when it is polled with the bus free |
| FairQueues.HeadBypassedOncePerClass | rs485-server/fair_queue.py:65-69 | once a ticket heads its class, every other class is served at most once before it |
| LvhvWire.DecodeIffEncoded | common/lvhv_protocol.py:22-63 | decoding within limits gives a list of blocks exactly when the bytes are its encoding and fit |
| LvhvPython.EncodeBlock | common/lvhv_protocol.py:12-19 | the block's bytes, or an error for exactly the blocks that cannot be packed |
| LvhvPython.EncodeMessage | common/lvhv_protocol.py:22-29 | the encoding, for exactly the encodable lists |
| LvhvPython.DecodeMessage | common/lvhv_protocol.py:41-63 | the offset loop decodes as specified, trailing bytes refused |
| LvhvPython.DecodeBlock | common/lvhv_protocol.py:49-60 | one round of the offset loop is the first block of what is left |
| LvhvPython.RecvExact | common/lvhv_protocol.py:66-78 | exactly the bytes asked for, under any fragmentation |
| LvhvPython.RecvBlock | common/lvhv_protocol.py:97-110 | a block as specified, and never a byte beyond the budget |
| LvhvPython.RecvBlocks | common/lvhv_protocol.py:89-93 | the block loop takes what the specification takes, within the budget left |
| LvhvPython.RecvMessage | common/lvhv_protocol.py:81-94 | what the stream holds, decided and consumed as specified, within the byte budget |
| LvhvPython.ReceivedDecodes | common/lvhv_protocol.py:94 | the final decoding always agrees with what was received block by block |
| LvhvPython.ReceiveEncoding | common/lvhv_protocol.py:81-94 | an encoding within the limits is received, and exactly its bytes are taken, whatever follows |
| LvhvPython.OnlyEncodingsAccepted | common/lvhv_protocol.py:81-94 | nothing but an encoding at the front of the stream is accepted |
| LvhvPython.AcceptedWithinLimits | common/lvhv_protocol.py:81-110 | whatever is accepted keeps to the limits on blocks, bytes and elements |
| LvhvPython.EncodingsArePrefixFree | common/lvhv_protocol.py:22-29 | no encoding is a proper prefix of another |
| LvhvC.MessageBlock.Construct | lvhv-server/messaging/Messages.c:38-52 | null for exactly an unknown type, too many elements or no memory; otherwise room for the elements, passing its own check |
| LvhvC.MessageBlock.Insert | lvhv-server/messaging/Messages.c:58-66 | one more element, or an invalid block that keeps what it had |
| LvhvC.CMessage.Grow | lvhv-server/messaging/Messages.c:106-117 | more room up to 1024 with the blocks kept, or an invalid message |
| LvhvC.CMessage.Append | lvhv-server/messaging/Messages.c:120-127 | the block joins exactly when everything allows it; count <= space <= 1024 always |
| LvhvC.CMessage.MagicOk | lvhv-server/messaging/Messages.c:146-151 | true exactly for a valid message whose first block is the magic block |
| LvhvC.CMessage.Construct | lvhv-server/messaging/Messages.c:91-98 | an empty valid message with room for two blocks, or null exactly without memory |
| LvhvC.ExactRead | lvhv-server/messaging/Messages.c:190-220 | all the bytes asked for under short and interrupted reads, or the reason there are not |
| LvhvC.RecvCBlock | lvhv-server/messaging/Messages.c:279-298 | a block as specified; unless reading fails, exactly the bytes specified are taken, within the budget exactly when it has room for a header or the input does not go beyond it |
| LvhvC.TakenWithinBudgetIff | lvhv-server/messaging/Messages.c:282-287 | reading a block keeps to the budget exactly when that has room for a header or the input does not go beyond it |
| LvhvC.BudgetOverrunIff | lvhv-server/messaging/Messages.c:321-330 | the block loop takes more than its budget exactly when a block is due with less room left than a header and the input goes beyond the budget |
| LvhvC.OvershootIff | lvhv-server/messaging/Messages.c:305-332 | more than the message limit, by five bytes at most, is taken from exactly the streams of that kind, and they are all refused |
| LvhvC.OvershootingStream | lvhv-server/messaging/Messages.c:305-332 | a concrete stream of that kind |
| LvhvC.RecvCBlocks | lvhv-server/messaging/Messages.c:321-330 | the block loop, with growing message and budget, takes what the specification takes |
| LvhvC.BlockListsAgree | lvhv-server/messaging/Messages.c:279-332 | block by block, the two receivers agree |
| LvhvC.MessageRecv | lvhv-server/messaging/Messages.c:305-332 | unless reading or memory fails, a message exactly when the stream holds one, with its blocks and its size, and exactly the bytes specified are taken: beyond the limit exactly for the overshooting streams |
| LvhvC.CAgreesWithPython | lvhv-server/messaging/Messages.c:279-332 | the server accepts a stream exactly when the Python client accepts it as a reply, reading the same blocks from the same bytes |
| LvhvC.CheckedSize | lvhv-server/messaging/Messages.c:263-270 | the size of the encoding, for exactly the messages that may be sent |
| LvhvC.SendBlock | lvhv-server/messaging/Messages.c:242-256 | the block's wire form, or a prefix of it if writing fails |
| LvhvC.ExactWrite | lvhv-server/messaging/Messages.c:190-220 | all the bytes, or a prefix and a failure |
| LvhvC.MessageSend | lvhv-server/messaging/Messages.c:262-277 | the same bytes as the Python encoding, a prefix of them if writing fails, nothing for a message that may not be sent |
| LvhvC.IsRequest | lvhv-server/messaging/Messages.c:152-160 | true exactly for the shape of a request |
| LvhvC.EncodedReplyArrives | common/lvhv_protocol.py:120-121 | an encodable message with the magic block crosses to the other side unchanged, in both directions |
| LvhvC.RequestsArrive | common/lvhv_protocol.py:32-38 | every request the client encodes is these bytes, is received whole by the server and is a request to it |
| LvhvC.RepliesArrive | protocol/lvhv.json:7-13 | every reply of one block, of any type and with elements of that type's width, is these bytes and is received whole on both sides |
| LvhvC.UnknownTypesRefused | lvhv-server/messaging/Messages.c:279-287 | a block of any type but the five is refused on both sides, whatever follows |
| LvhvC.AcceptedTypes | protocol/lvhv.json:7-13 | whatever is accepted is of the five types, each element of its type's width |
| HvRamp.Supply.SetHvByDac | Client/PowerSupplyServerConnection.py:230-237 | a value out of range is not sent; one not acknowledged ends the ramp |
| HvRamp.Supply.TimedDacSet | Client/PowerSupplyServerConnection.py:244-248 | a set lock skips the write |
| HvRamp.Supply.TakeDacSteps | Client/PowerSupplyServerConnection.py:250-272 | the step loop does what the specified burst does |
| HvRamp.Supply.WalkDacSteps | Client/PowerSupplyServerConnection.py:274-300 | the walking loop does what the specified walk does |
| HvRamp.Supply.TakeMacroStep | Client/PowerSupplyServerConnection.py:303-308 | a set lock gives a reading only |
| HvRamp.Supply.SetWireVoltage | Client/PowerSupplyServerConnection.py:310-391 | the whole nested ramp does what the specified ramp does, for every script of answers |
| HvRamp.EveryRampIsSafe | Client/PowerSupplyServerConnection.py:310-391 | for all readings: every value sent is within 0..15000, after a clear lock and no failed write or (going up) trip, and is 0 after a trip going down, or else the last acknowledged value plus the planned step and every skipped one; steps and readings are those of the distance, each step leads from the latest reading to the planned stop, and no more than planned come between readings; and the end a ramp reports is so |
| HvRamp.WritesFollowReadings | Client/PowerSupplyServerConnection.py:274-300 | after a reading more than 50 volts above the voltage no write is above the last acknowledged value, after one more than 50 below none is below it, but for a 0 after a trip |
| HvRamp.FarRampsGoOneWay | Client/PowerSupplyServerConnection.py:274-391 | so if every reading is that far above a ramp only goes down, and if every reading is that far below it only goes up |
| HvRamp.ReadingsAreFrequent | Client/PowerSupplyServerConnection.py:250-272 | fewer than ten writes have come since the latest reading before any step |
| HvRamp.HealthyBurst | Client/PowerSupplyServerConnection.py:250-272 | with nothing in the way every step of a burst is taken and acknowledged, and a reading follows |
| HvRamp.NothingMoreIsWritten | Client/PowerSupplyServerConnection.py:230-272 | after a bad acknowledgement, a trip on the way up, or a lock that stays set, nothing more is written |
| HvRamp.RampStepWithinBoundIff | Client/PowerSupplyServerConnection.py:244-272 | for all readings, a write of a ramp, other than a 0 after a trip, is within 50 of the last acknowledged value exactly when its step times one plus the skipped writes is, or it goes down from a value of 50 or less |
| HvRamp.NeverClearedIsLatched | Client/PowerSupplyServerConnection.py:239-248 | readings in which the lock never falls make every ramp see a lock that stays set once set |
| HvRamp.NeverClearedStepsAreSmall | Client/PowerSupplyServerConnection.py:244-391 | so with such readings every write is within 50 of the last acknowledged value, or 0 after a trip going down |
| HvRamp.LatchedRampStepsAreSmall | Client/PowerSupplyServerConnection.py:244-391 | the same for every ramp that never saw the lock clear after seeing it set |
| HvRamp.LockBlipDoublesTheStep | Client/PowerSupplyServerConnection.py:244-272 | otherwise not: a lock seen set for one write only makes the first write of a ramp 100 above what the supply holds |
| DacTransfer.Expander.PinWrite | lvhv-server/MCP23S08.c:130-161 | one register write with one bit changed in the cache, failed or not |
| DacTransfer.Dac.Write | lvhv-server/dac8164.c:77-100 | success after all the writes of the transfer; a failure at write k after k+2 writes, back at idle |
| DacTransfer.Dac.WriteChannel | lvhv-server/dac8164.c:115-158 | refuses bad channels and values, else transfers the channel's word |
| DacTransfer.TransferDelivers | lvhv-server/dac8164.c:80-92 | whatever the pins were before, the converter hears exactly the 24 bits, most significant first, one per clock pulse with its sync low |
| DacTransfer.OthersHearNothing | lvhv-server/dac8164.c:80-92 | converters with other sync pins hear nothing |
| DacTransfer.TransferSelectsOne | lvhv-server/dac8164.c:80-92 | sync is low from the second write to the last but one, and no other pin than the three moves |
| DacTransfer.FailedTransferDelivers | lvhv-server/dac8164.c:77-100 | a failed transfer is heard as the front of its bits, and whole exactly when it failed at the last write, or at one of the two before with the failed and recovery writes reaching the pins as needed |
| DacTransfer.FailedWordDelivers | lvhv-server/dac8164.c:77-100 | for the 24-bit word: whole exactly for a failure at write 75, at 74 when that write or the recovery's clock-low lands, or at 73 when both land |
| DacTransfer.WordIsSum | lvhv-server/dac8164.c:122-156 | the ORed fields of the word do not overlap |
| DacTransfer.WordIdentifies | lvhv-server/dac8164.c:122-156 | the bits heard determine channel and value |
| DacTransfer.AcknowledgedIsHeard | lvhv-server/i2c_routines.c:454-461 | an acknowledged write was heard by its own converter as its word and by the others not at all |
| DacTransfer.HvDacs.DacWrite | lvhv-server/i2c_routines.c:454-461 | a valid setting is acknowledged exactly if no register write of its transfer fails; after any history each cached setting is the last acknowledged value of its channel, or 0 |
| DacTransfer.HvDacs.Query | lvhv-server/i2c_routines.c:470-473 | the client is told the last acknowledged value |
| RocMonitors.Monitor.SetPanels | roc-temperature-monitor/roc_temperature_monitor.py:181-188 | kept panels keep their state, new ones start unseen, removed ones lose it and their alert latches |
| RocMonitors.Monitor.ApplyPower | roc-temperature-monitor/roc_temperature_monitor.py:190-210 | any channel at the cutoff keeps all panels watched; otherwise every state and latch is cleared |
| RocMonitors.ForgottenAre | roc-temperature-monitor/roc_temperature_monitor.py:203-210 | power-off rearms both alerts of every panel and no others |
| RocMonitors.Monitor.TakeSample | roc-temperature-monitor/roc_temperature_monitor.py:212-222 | a failed or cool sample breaks the streak; only a good one rearms |
| RocMonitors.Monitor.FinishCycle | roc-temperature-monitor/roc_temperature_monitor.py:224-227 | a quorum restarts the coverage window and rearms its alert |
| RocMonitors.Monitor.Alarms | roc-temperature-monitor/roc_temperature_monitor.py:229-243 | the alarms are those the history calls for |
| RocMonitors.Monitor.PowerIsUnknown | roc-temperature-monitor/roc_temperature_monitor.py:280-288 | an unreadable power state breaks every streak and changes nothing else |
| RocMonitors.StreakIsLatestRun | roc-temperature-monitor/roc_temperature_monitor.py:212-218 | the stored count reaches n exactly when the latest n marks that bear on the panel are all hot readings |
| RocMonitors.StreakRules | roc-temperature-monitor/roc_temperature_monitor.py:190-222 | what each event does to a panel's run: only a reading above the threshold lengthens it; a cool or failed one, power off or unknown, and removal end it; nothing else touches it |
| RocMonitors.HotAlarmIff | roc-temperature-monitor/roc_temperature_monitor.py:229-236 | in every run that samples watched panels, a panel is alarmed exactly when its latest `count` marks are all hot |
| RocMonitors.NoRepeatsUntilRearmed | roc-temperature-monitor/roc_temperature_monitor.py:250-274 | between two deliveries of one incident to one recipient it was rearmed |
| RocMonitors.StreakIsWatched | roc-temperature-monitor/roc_temperature_monitor.py:190-218 | in such runs a streak implies the panel is watched |
| RocMonitors.Batches | roc-temperature-monitor/roc_temperature_monitor.py:257-265 | everything pending, in order, in messages that fit the limit, each but the last full |
| RocMonitors.JoinedIs | roc-temperature-monitor/roc_temperature_monitor.py:257-265 | a message is as long as its texts and a newline between any two |
| RocMonitors.Monitor.Notify | roc-temperature-monitor/roc_temperature_monitor.py:250-274 | afterwards everyone has every alarm but those in a message just refused |
| RocMonitors.Monitor.ReadAll | roc-temperature-monitor/roc_temperature_monitor.py:300-314 | unless stopped, one sample for each watched panel and nothing else, beginning with the panel whose turn it is and going round |
| RocMonitors.SampledOnce | roc-temperature-monitor/roc_temperature_monitor.py:300-314 | of distinct panels each is sampled exactly once in a full reading, and no other is |
| RocMonitors.Monitor.Sweep | roc-temperature-monitor/roc_temperature_monitor.py:279-319 | the history up to the first alarm decision is exactly that of the readings met, and the decision follows from it |
| RocMonitors.Monitor.PowerAndAlarms | roc-temperature-monitor/roc_temperature_monitor.py:322-329 | after the recheck an alarm remains only with some channel at the cutoff |
| RocMonitors.Monitor.Cycle | roc-temperature-monitor/roc_temperature_monitor.py:277-344 | power-off is sent exactly in live mode with an alarm at the sweep and still one after a readable recheck, which then shows some channel at the cutoff; history and panels are those of a whole cycle |
| RocMonitors.CycleAddsOne | roc-temperature-monitor/roc_temperature_monitor.py:277-344 | however a cycle goes, it makes a panel's run of hot readings longer by one at most |
| RocMonitors.HotNeedsCycles | roc-temperature-monitor/roc_temperature_monitor.py:229-236 | so a panel without a run of hot readings is not alarmed as hot before `count` further cycles |
| RocMonitors.LooksIff | roc-temperature-monitor/roc_temperature_monitor.py:277-329 | the power is looked at again, to act, exactly after a cycle with the power readable and on and no stop request, with every panel read and something to be alarmed |
| RocMonitors.HotCycleCounts | roc-temperature-monitor/roc_temperature_monitor.py:277-329 | a whole cycle that reads a panel hot makes its run one longer, and ends with an alarm once that is `count` |
| RocMonitors.HotCyclesAlarm | roc-temperature-monitor/roc_temperature_monitor.py:212-243 | `count` cycles in a row that read a panel hot are enough for the alarm |
| DiscoveryHistories.AscendingSorts | rs485-server/discovery_history.py:117-122 | the sorted list is strictly increasing with the same members |
| DiscoveryHistories.DiscoveryHistory.Open | rs485-server/discovery_history.py:98-114 | refused for exactly another version or a bad list of addresses, known or in a queued warning; otherwise kept as it is |
| DiscoveryHistories.LoadableIff | rs485-server/discovery_history.py:104-114 | accepted exactly with version 1 and good lists of addresses, those of queued warnings included |
| DiscoveryHistories.AddressesIff | rs485-server/discovery_history.py:117-122 | a good list has at most 512 addresses from 0 to 511, none twice |
| DiscoveryHistories.PartsCutUp | rs485-server/discovery_history.py:147-150 | the parts of a missing list join up to it, each of at most 100 and all but the last full |
| DiscoveryHistories.WarningsAre | rs485-server/discovery_history.py:137-150 | a scan at startup or after a power-on with the power verified on, and no other, warns of exactly the expected panels in its range that it did not find |
| DiscoveryHistories.DiscoveryHistory.Record | rs485-server/discovery_history.py:130-154 | an acceptable scan is recorded as the specified step under identifiers never used before, any other changes nothing |
| DiscoveryHistories.AcceptableIff | rs485-server/discovery_history.py:130-136 | acceptable means complete, with a good range and a good list of addresses in it |
| DiscoveryHistories.KnownIs | rs485-server/discovery_history.py:144-145 | in every run the expected panels are those loaded and all those found with the power verified on |
| DiscoveryHistories.KnownInOrderIff | rs485-server/discovery_history.py:103-122 | the list is in order exactly when it was loaded in order or a powered scan was recorded |
| DiscoveryHistories.LoadedOutOfOrder | rs485-server/discovery_history.py:103-122 | a file with panel 2 before panel 1 is opened and stays out of order through any scans without verified power |
| DiscoveryHistories.NoWarningLost | rs485-server/discovery_history.py:162-192 | under every interleaving a queued warning waits, with marked deliveries only, until it is removed with everyone wanted marked |
| DiscoveryHistories.AddedWarningsReachEveryone | rs485-server/discovery_history.py:130-192 | a warning a scan added is still queued, or every configured recipient was sent it after the scan |
| DiscoveryHistories.DiscoveryHistory.Mark | rs485-server/discovery_history.py:182-186 | marks the first warning with the identifier, if it is still there |
| DiscoveryHistories.MarkFirstAt | rs485-server/discovery_history.py:182-186 | marking adds the recipient to the first warning with the identifier and changes no other |
| DiscoveryHistories.DiscoveryHistory.Remove | rs485-server/discovery_history.py:188-192 | removes what everyone has, and keeps the rest in order |
| DiscoveryHistories.PruneKeeps | rs485-server/discovery_history.py:188-192 | a warning is removed exactly if it has the identifier and everyone wanted has it |
| DiscoveryHistories.DiscoveryHistory.Deliver | rs485-server/discovery_history.py:162-192 | stops exactly when the power is not verified on for a pending send; else every accepted send is marked and every copied warning went through removal |
| PowerOnDiscoveries.AtMost241Attempts | rs485-server/power_on_discovery.py:52-87 | due time and expiry come and go together, and a request is attempted at most 241 times |
| PowerOnDiscoveries.PowerOnDiscovery.Receive | rs485-server/power_on_discovery.py:52-60 | a power-on falls due its delay later and expires its window after that; any other payload changes nothing |
| PowerOnDiscoveries.AttemptsKeepToWindow | rs485-server/power_on_discovery.py:52-87 | in every run an attempt comes no sooner than the delay after the latest power-on, and within the window that follows |
| PowerOnDiscoveries.EveryRunIsSound | rs485-server/power_on_discovery.py:52-87 | in every run, for any delay and window, each attempt moves the due time on by at least a quarter of a second within the window |
| PowerOnDiscoveries.PowerOnDiscovery.Step | rs485-server/power_on_discovery.py:62-87 | an attempt exactly when due, not expired and not stopped; a busy bus is retried after a quarter of a second, a failure after two seconds, and nothing else is retried |
| TripCounters.CountIsLargestExcess | SmartSwitch/daq.c:50-61 | the counter is the largest excess, over-threshold less other samples, of any run of counted samples up to now |
| TripCounters.NoWrapIff | SmartSwitch/daq.c:55-58 | a 16-bit counter below its requirement cannot wrap in a call exactly when the requirement is at most 65336 |
| TripCounters.Daq.CountSample | SmartSwitch/daq.c:50-61 | the nested loops count each enabled, untripped channel once per sample |
| TripCounters.SumIsOfLatestIff | SmartSwitch/daq.c:73-92 | what the choice adds up has the reading of 50 calls ago in place of the one of 25 calls ago, so it is the sum of the 25 latest exactly when the two are equal |
| TripCounters.SpikeOutweighs | SmartSwitch/daq.c:86-99 | readings for which a channel over its threshold now loses to one that was high 50 calls ago |
| TripCounters.Daq.Store | SmartSwitch/daq.c:43-73 | the ring buffer holds the last reading of each slot's latest call |
| TripCounters.Daq.Sum | SmartSwitch/daq.c:90-94 | the index loop over the ring buffer adds up the specified readings |
| TripCounters.Daq.Largest | SmartSwitch/daq.c:86-99 | the first untripped channel with the largest positive sum of its stored readings over its threshold |
| TripCounters.Daq.GetAllAveragedCurrents | SmartSwitch/daq.c:13-107 | a sample is over when it exceeds pedestal plus threshold; trips at most one channel, untripped before and of the largest sum, exactly when a requirement is met, trips are allowed and a sum is positive; the counters are cleared or are what was counted; the last readings join the history |
| TripCounters.TripsAreApart | SmartSwitch/daq.c:17 | an automatic trip comes at least 20 calls after any trip before it |
| TripCounters.HeldOffIs | SmartSwitch/daq.c:17 | the hold-off is 20 calls from the latest trip and then over |
| TripCounters.Daq.TripChannel | SmartSwitch/usb_comm.c:70-80 | a manual trip of an enabled channel starts the hold-off too |
| TripCounters.Daq.ResetTrip | SmartSwitch/usb_comm.c:82-92 | the channel is untripped and enabled |
| TripCounters.Daq.Enable | SmartSwitch/usb_comm.c:94-102 | the mask of one channel is set or cleared, and nothing else changes |
| TripCounters.Daq.SetRequirement | SmartSwitch/usb_comm.c:109-112 | the requirement of one channel changes |
| BinaryHeaps.Heap.Push | lvhv-server/BinaryHeap.c:20-42 | a full heap is unchanged, otherwise exactly the node is added and the order kept |
| BinaryHeaps.Heap.Pop | lvhv-server/BinaryHeap.c:44-85 | a node of largest key, and exactly that node goes; order and empty slots kept |
| BinaryHeaps.Heap.constructor | lvhv-server/BinaryHeap.c:7-14 | an empty heap of the given size |
| BinaryHeaps.RootIsLargest | lvhv-server/BinaryHeap.c:49 | in every heap the root's key is the largest |
| BinaryHeaps.RiseOneLevel | lvhv-server/BinaryHeap.c:28-39 | one swap upwards leaves at most the risen node out of place, and the nodes the same |
| BinaryHeaps.SinkOneLevel | lvhv-server/BinaryHeap.c:62-82 | one swap downwards leaves at most the sunk node out of place, and the nodes the same |
| BinaryHeaps.DrainedKeysDescend | lvhv-server/BinaryHeap.c:44-85 | draining any heap yields keys in nonincreasing order |
| BinaryHeaps.DrainConserves | lvhv-server/BinaryHeap.c:44-85 | what is popped and what is left are what was there |
| JsonComments.StripJsonComments | Client/ramp-hv.py:105-143 | the index loop computes the specified text |
| JsonComments.TokensCover | Client/ramp-hv.py:105-143 | plain characters, literals and comments partition every text |
| JsonComments.FirstTokenIs | Client/ramp-hv.py:105-143 | a literal ends at the next quote that is not escaped, a line comment before the next newline, a block comment at the first end after its opening, or else with the text |
| JsonComments.StripDropsComments | Client/ramp-hv.py:105-143 | the result is the text with exactly its comments left out |
| JsonComments.TokensOfResult | Client/ramp-hv.py:105-143 | removing comments creates no new comment or literal |
| JsonComments.ResultHasNoComment | Client/ramp-hv.py:105-143 | no comment is left outside the literals |
| JsonComments.Idempotent | Client/ramp-hv.py:105-143 | stripping twice is stripping once |
| JsonComments.UnchangedIffNoComment | Client/ramp-hv.py:105-143 | a text is returned unchanged exactly when no comment opens outside its literals |
| JsonComments.LiteralsSurvive | Client/ramp-hv.py:105-143 | every literal outside comments is kept, verbatim and in order |
| JsonComments.NoOpenerInPlainText | Client/ramp-hv.py:105-143 | plain text never holds a comment opener |

## Left out

- Exchanges.PiBus.ReadScalar: the 10-bit-time pause after an answer and the error texts and counters in exceptions are not modelled.
- BusSessions.BusSession.Open: saves are atomic, and the clock never goes back.
- LvhvC.MessageRecv: payload bytes are opaque groups and the host is little-endian, so `swap_payload` does nothing here.
- LvhvPython.EncodeBlock: packing and unpacking of numbers is not modelled; an element is the byte group it packs to.
- HvRamp.Supply.SetWireVoltage: voltages are real numbers; the pauses, the DAC log and the printed messages are left out, one client ramps a channel at a time, and the ramp ends where the script of answers does.
- DacTransfer.Dac.Write: the delays are left out, and a failed register write may or may not have changed the pins, which no lemma relies on.
- DacTransfer.HvDacs.DacWrite: the check of a whole command before it, and the conversion of its float value, are left out.
- RocMonitors.Monitor.SetPanels: the discovered names are taken as given, without sorting.
- RocMonitors.Monitor.Cycle: the budget of a cycle shows only as readings that fail; saving and restoring the monitor across a restart is left out.
- RocMonitors.Monitor.Alarms: the texts of alarms are left out but for their lengths, and a recipient is identified without hashing.
- DiscoveryHistories.DiscoveryHistory.Record: `uuid4` is a number never drawn twice, and the saved copy of the last scan and its time stamps are left out.
- DiscoveryHistories.DiscoveryHistory.Open: a file that is not JSON of the expected types (lists, natural numbers, strings of 64 characters for recipients), which the source refuses too, is not modelled.
- TripCounters.Daq.GetAllAveragedCurrents: the averaged currents and voltages and the full history buffer are left out; readings are scaled real numbers, so the cast of a negative code to unsigned when it is stored is not modelled.
- Transformation rules, calibrations, HTTP handlers, SSH tunnels, Pushover, databases, plotting and GUI scripts: input and output around the logic modelled here.
- `drain_uart`, GPIO, SPI and I2C calls: replaced by inputs.
- `hv-monitor.py`, the `v6_*` and `v48_*` scripts, `alarm_policy.py`, network-watch and I2C sensor alerts: each is settled by one branch or repeats the temperature monitor in simpler form.
