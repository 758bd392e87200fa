# Smart-home firmware protocols, verified

A Dafny model of the protocols in this firmware monorepo, with proofs about their whole runs. Code that
changes state step by step is modelled twice: a class with the source's fields, loops and early returns,
and a pure function on a value of that state. Each method's `ensures` ties the class to the function; the
theorems are about the function, over every run. What the network, the file system, the flash chip, the
clock or an interrupt can answer is a parameter of the step, so a theorem over "every run" ranges over all
their answers.

| files | what they model |
|---|---|
| `TransferSender.dfy`, `TransferSenderRuns.dfy` | the MQTT file and firmware sender of `ota/otaUpdate.py` |
| `TransferDevice.dfy`, `TransferSession.dfy` | the receiving device: `DataTransfer` behind `MqttCommon` |
| `TransferSystem.dfy`, `TransferFirmware.dfy`, `TransferAssumption.dfy`, `TransferSuccess.dfy`, `TransferLeftovers.dfy`, `TransferSpare.dfy` | both ends with lossy channels and device restarts |
| `TransferRepeats.dfy`, `TransferAborts.dfy` | what the repetition of pieces recovers, and what it does not |
| `TransferOutcome.dfy`, `TransferErrors.dfy` | starts, results, restarts, and which error is named |
| `RCSwitch.dfy`, `RCSwitchFrames.dfy`, `RCSwitchReceiver.dfy` | the 433 MHz pulse codec and its interrupt-driven receiver |
| `CanOta.dfy`, `OtaDevice.dfy`, `OtaCheck.dfy`, `CanOtaSystem.dfy`, `CanOtaSuccess.dfy`, `CanOtaLeftovers.dfy`, `CanOtaPace.dfy` | firmware over CAN: gateway, device, and the bus between them |
| `Mcp2515Tx.dfy`, `CanRegisters.dfy` | CAN transmit buffers, identifier registers, acceptance filters |
| `Crc16.dfy`, `Crc16Bursts.dfy`, `Eeprom.dfy` | the 16-bit checksum and the records it guards |
| `Base64.dfy`, `SpiFlash.dfy` | Base64 and page-split flash writes |
| `RingBuffer.dfy`, `DfPlayer.dfy`, `DfPlayerModule.dfy` | the MP3 player, its queue, and what its module is told |
| `MqttStream.dfy` | the MQTT proxy's stream framing |
| `Commissioner.dfy`, `Backoff.dfy` | the commissioning table and the reconnect ladder |

## Main results

1. **A DONE that can be believed.** Over every interleaving of sender, device, lost messages and device
   restarts that respects the assumption written down in `ota/otaUpdate.py`, the sender reaches DONE only
   after the device has stored exactly the sender's bytes and passed the final check
   (`TransferSystem.DoneOnlyAfterDelivery`). The device may have an unfinished transfer open when the start
   arrives, but no positive result of an earlier one waiting to be reported and no check under way. Both
   conditions are needed (`TransferLeftovers.OldCheckIsBelieved`, `TransferLeftovers.OldSessionIsBelieved`), and for
   ordinary files the first is exact (`TransferLeftovers.ReliableIffNoResultWaits`). A firmware tolerates such a result if
   no transfer is open when it starts (`TransferSpare.FirmwareToleratesResult`). Without the sender's
   assumption the theorem holds exactly for an ordinary file of one piece and a firmware of at most two
   (`TransferAssumption.UnconditionallySafeIff`): for everything longer there is a run, free of losses and
   restarts, that ends in DONE with the check still open. And the hypothesis is satisfiable: a run in which it holds takes every acceptable file and firmware to DONE
   (`TransferSuccess.TransferSucceeds`), also if every piece but the last is lost, loses its answer, up to three times
   in any pattern, or is answered only after it was repeated (`TransferRepeats.TransferRecovers`). The device is then
   restarted if it was a firmware, and only then (`TransferOutcome.PositiveResultRestartsIff`).
2. **Both ends stay honest on their own.** Every sender run ends within a stated number of passes
   (`TransferSenderRuns.EveryRunEnds`), and a device session never holds anything but a prefix of the data
   and never replaces the target by anything but all of it (`TransferSession.SessionIsSafe`).
3. **Firmware over CAN.** Over every interleaving, loss and failure the gateway reports success only when the
   device's flash holds exactly the file (`CanOtaSystem.SuccessMeansStored`), although pieces carry only the
   low byte of their offset and acknowledgments carry no number at all. Up to 255 acknowledgments of pieces may be
   left over on the bus; a positive OTA_END must not be (`CanOtaSuccess.ReliableIffNoStaleEnd`). The device may restart
   at any time, and may wait for a piece of an earlier transfer if no acknowledgment is left over; it must not be in
   an earlier one's check (`CanOtaSuccess.OldCheckIsBelieved`) or erase (`CanOtaLeftovers.OldStartIsBelieved`).
   Without a loss a file that fits is transferred and one that does not is reported (`CanOtaSuccess.TransferSucceeds`, `CanOtaSuccess.OversizeIsReported`), and neither end
   times out on a file of any length while the other keeps answering (`CanOtaPace.GatewayKeepsPace`,
   `CanOtaPace.DeviceKeepsPace`).
4. **Two repeats of a 433 MHz code are received** from any idle gap, through printer, edge recorder,
   hand-over and decoder, with every duration measured up to 186 microseconds off
   (`RCSwitchFrames.TwoRepeatsAreReceived`), and `available` reports the code, whenever else the
   interrupt fires (`RCSwitchReceiver.SendAndReceive`). One microsecond more and a frame can be refused
   (`RCSwitchFrames.FurtherOffIsRefused`).
5. **CAN frames keep their order** through the three-buffer allocator (`Mcp2515Tx.BusKeepsOrder`), and none is refused
   but after a flush that timed out.
6. **The checksum sees every burst of up to 16 bits** (`Crc16Bursts.BurstAltersCrc`), and the EEPROM records
   with it.
7. **The player plays what it was asked to**: over every run its commands are those of the accepted tracks, in order,
   each to a module that has power and that track's volume (`DfPlayerModule.PlayedAsAsked`), and at the intervals the
   module needs (`DfPlayerModule.CommandsAreTimed`).
8. **The ladder is what the device waits**: over every run attempts are a full delay apart
   (`Backoff.AttemptsAreSpaced`), and over every outage their number follows from its length
   (`Backoff.OutageFollowsLadder`).
9. Refinements and round trips: Base64, flash pages, ring buffer, MQTT framing, commissioning table.

## Where the code does not do what it says

Each of these has a lemma that shows it on a concrete run or state, and a lemma with the condition under which
the promise does hold.

- `TransferAssumption.StaleRefusalIsCredited`, `TransferAssumption.TwoRefusalsAreCredited`: the comment at
  `ota/otaUpdate.py:1509-1511` gives the reason why a late refusal is harmless. It is not, beyond the sizes of
  `TransferAssumption.UnconditionallySafeIff`, unless the assumption holds.
- `TransferAborts.LastPieceRecoversIff`, `TransferAborts.LateLastAnswerAborts`: repetition is there so that a lost or
  late acknowledgment does not abort a transfer (`ota/otaUpdate.py:1450-1453`, `ota/otaUpdate.py:1477-1481`). For the
  last piece it does: the device has left its storing state, answers the repeat with "begin not called", and the sender
  ends in ERROR although the device has every byte, a file in its check and a firmware installed. Every other piece recovers
  (`TransferRepeats.TransferRecovers`), and so does the last one if only the piece itself was lost.
- `TransferAborts.TwoNeedlessRepeatsAbort`: an answer slower than two timeouts aborts the transfer, since only one of the
  two refusals it then meets is forgiven; `TransferRepeats.OneRefusalIsForgiven` has the exact number.
- `Base64.DecodesIff`: a NUL byte behind the last full block is decoded as an `A`; everything else outside the alphabet
  is refused.
- `Backoff.NetworkReturnDoesNotWait`: when the network comes back the device tries to connect at once, on every rung,
  though the ladder promises that the first attempt after a drop waits (`lib/common/src/reconnectBackoff.hpp:6-8`).
  All other attempts do (`Backoff.AttemptsAreSpaced`).
- `TransferLeftovers.StaleResultIsBelieved`: `begin()` does not clear a positive result that waits to be reported, and
  the sender takes it for the result of the new transfer.
- `TransferSession.RefusedBeginIsHarmlessIff`: a `begin()` that fails late leaves a check that was under way running,
  with its hash, under the new name and MD5. If the hash so far is the announced one, the temp file, which may just
  have been emptied, replaces the target.
- `RCSwitchFrames.OldCodeIsReadAgain`, `RCSwitchFrames.DecodesFrameAloneIffTwo`: the bit count of a hand-over of a single
  duration wraps at 32 bits before it is clamped, so the bits of an older frame are decoded behind it; two sync
  gaps after a 64-bit code deliver that code a second time.
- `CanRegisters.McpFilterExactIff`: the MCP2515's extended filter drops bit 20 of the identifier; it is exact if
  and only if the mask leaves that bit out. The mask this firmware uses does.
- `OtaCheck.ValidVouchesIff`: a piece that arrives while the CAN device runs its closing check is not refused and moves
  the check past bytes it never read, so from three bytes on VALID can be reached with every announced checksum and a
  wrong image. `OtaDevice.ValidMeansChecksum` has the condition; `CanOtaSystem.SuccessMeansStored` shows that the
  gateway never provokes it.
- `CanOtaSuccess.ReliableIffNoStaleEnd`: a late OTA_END acknowledgment of an earlier transfer is taken for the present
  one's.
- `Backoff.ResetIsEarnedIff`: the settle check reads the online stamp before it is refreshed, and a connection that is
  lost and made again within one pass does not refresh it at all. After an outage of more than five minutes, or after
  such a reconnect, the ladder is cleared by a connection that has not held (`Backoff.LongOutageResetsAtOnce`,
  `Backoff.SilentReconnectResetsAtOnce`, `Backoff.EarlierReconnectResetsEarly`), contrary to the comment above it.
- `Backoff.EarlyFailureForgets`, `Backoff.EarlyFailureCostsOneRungIff`: a boot that fails before the backoff wait stores
  rung 1 over whatever was stored; it costs one rung, like the other failures, exactly if none was owed.

## Model

| member | source | states |
|---|---|---|
| `TransferSystem.DoneOnlyAfterDelivery` | ota/otaUpdate.py:1443-1562 | DONE is reached only after the device verified and put in place exactly the sender's bytes, over every possible run that keeps the sender's assumption, towards a device with no earlier result waiting and no check under way |
| `TransferSystem.StepKeepsInv` | ota/otaUpdate.py:1507-1562 | the invariant that ties the sender's count, both channels and the device's session together survives every step of either end, every loss and every restart |
| `TransferSystem.DrainKeepsInv` | ota/otaUpdate.py:1443-1496 | however many queued answers one pass takes, reading them keeps the invariant: none is credited to the wrong piece |
| `TransferSystem.ReceivePiece` | lib/mqttCommon/src/mqttCommon.cpp:53-120 | a piece the device answers keeps the invariant: an acceptance is only ever about the piece the sender counts next |
| `TransferAssumption.UnconditionallySafeIff` | ota/otaUpdate.py:1507-1524 | DONE is reliable on all runs, assumption or not, if and only if an ordinary file fits in one piece or a firmware in two |
| `TransferAssumption.TwoRefusalsAreCredited` | ota/otaUpdate.py:1443-1524 | for everything longer than two pieces, firmware included, a run without loss, failure or restart credits two refusals of one piece to the next two and reaches DONE with nothing verified |
| `TransferFirmware.TwoPieceFirmwareIsSafe` | lib/dataTransfer/src/dataTransfer.cpp:218-231 | a firmware of at most two pieces is verified and installed whenever DONE is reached, on every run and without the assumption |
| `TransferAssumption.StepsRemember` | lib/dataTransfer/src/dataTransfer.cpp:85-136 | no step of the device leaves an update image open that it has forgotten about, the condition under which a firmware start is accepted |
| `TransferAssumption.StaleRefusalIsCredited` | ota/otaUpdate.py:1443-1488 | for every ordinary file of more than one piece a run without loss, failure or restart reaches DONE with nothing verified |
| `TransferAssumption.OnePieceNeedsNoAssumption` | ota/otaUpdate.py:1539-1562 | a one-piece transfer cannot violate the assumption |
| `TransferSuccess.TransferSucceeds` | ota/otaUpdate.py:1434-1562 | from every initial state with no result waiting, for files and firmware, a run without loss, failure or restart, in which the assumption holds, ends in DONE with the data delivered, and the device restarted exactly for a firmware |
| `TransferRepeats.TransferRecovers` | ota/otaUpdate.py:1443-1562 | for every choice of mishap for every piece but the last (up to three attempts lost on the way there or back, or both answers late, in one pass or two) and up to three losses of the last: that run goes on to DONE with the data delivered and the device restarted exactly for a firmware |
| `TransferRepeats.Recovers` | ota/otaUpdate.py:1554-1559 | each such mishap ends with the next piece in flight, the assumption kept |
| `TransferRepeats.OneRefusalIsForgiven` | ota/otaUpdate.py:1443-1488 | an acceptance and then refusals of repeats, in one queue: the transfer goes on if and only if there is at most one |
| `TransferRepeats.RefusalExpiresIff` | ota/otaUpdate.py:1507-1513 | a refusal is forgiven up to the piece after the repeated one, and aborts from the next on |
| `TransferRepeats.UntypedIsIgnored` | ota/otaUpdate.py:1445-1447 | a message without a type changes nothing, wherever in the queue |
| `TransferRepeats.WaitsOutTheTimeout` | ota/otaUpdate.py:1552-1562 | a waiting sender acts if and only if 25 seconds are over |
| `TransferRepeats.EveryWaitIsFull` | ota/otaUpdate.py:1498-1537 | those seconds start again with each publication and with the answer to the last piece |
| `TransferAborts.LastPieceRecoversIff` | ota/otaUpdate.py:1443-1488 | up to three lost attempts at the last piece are recovered if and only if no answer was among what was lost |
| `TransferAborts.LateLastAnswerAborts` | lib/dataTransfer/src/dataTransfer.cpp:144-148 | a repeat of the last piece that proves needless ends in ERROR, its answers in one pass or in two |
| `TransferAborts.TwoNeedlessRepeatsAbort` | ota/otaUpdate.py:1473-1488 | a piece answered after its second repeat ends in ERROR |
| `TransferAborts.FourLossesAbort` | ota/otaUpdate.py:1554-1562 | four attempts in a row that come to nothing, in any pattern, end in ERROR |
| `TransferOutcome.StartIsAcceptedIff` | lib/mqttCommon/src/mqttCommon.cpp:75-107 | a start is accepted if and only if message and platform are in order; the device then expects its first piece, and asks for a restart exactly for a firmware |
| `TransferOutcome.StartDecides` | ota/otaUpdate.py:1462-1488 | sender and device together: the first piece goes out, or the sender ends in ERROR |
| `TransferOutcome.PositiveResultRestartsIff` | lib/mqttCommon/src/mqttCommon.cpp:21-38 | over every run after an accepted start, the pass that reports a positive result restarts the device if and only if the start was for a firmware |
| `TransferOutcome.SilenceEndsTransferIff` | lib/dataTransfer/src/dataTransfer.cpp:254-262 | a pass leaves a storing transfer alone for fifteen minutes and closes everything after that |
| `TransferOutcome.WrongHashFails` | lib/dataTransfer/src/dataTransfer.cpp:284-289 | a file with another hash is transferred, refused, and reported: the sender ends in ERROR and nothing was put in place |
| `TransferErrors.RefusedStartNamesFirstFailure` | lib/dataTransfer/src/dataTransfer.cpp:43-142 | a refused start names the first demand, in a fixed order, that does not hold; those on the message leave the device alone |
| `TransferErrors.RefusedPieceNamesFirstFailure` | lib/dataTransfer/src/dataTransfer.cpp:144-191 | so does a refused piece |
| `TransferErrors.RefusedTextIs` | lib/dataTransfer/src/dataTransfer.cpp:161-183 | which lengths of text are refused as what, and how many bytes an accepted one gives |
| `TransferErrors.ShortWriteIsNamed` | lib/dataTransfer/src/dataTransfer.cpp:192-208 | a write succeeds if and only if something open takes all of it; a short one ends the transfer |
| `TransferErrors.EndNamesFirstFailure` | lib/dataTransfer/src/dataTransfer.cpp:218-252 | an end that fails names why, and has put nothing in place |
| `TransferErrors.CheckNamesFirstFailure` | lib/dataTransfer/src/dataTransfer.cpp:263-301 | so does a pass of the check; the others read on or put the file in place |
| `TransferErrors.FailureIsReported` | lib/mqttCommon/src/mqttCommon.cpp:21-43 | two passes after a failure a negative result has gone out with every reason |
| `TransferLeftovers.ReliableIffNoResultWaits` | lib/mqttCommon/src/mqttCommon.cpp:21-38 | for an ordinary file that is not in place yet, and no check under way, DONE is reliable under the assumption if and only if no positive result of an earlier transfer waits to be reported |
| `TransferSpare.FirmwareToleratesResult` | lib/dataTransfer/src/dataTransfer.cpp:218-231 | for a firmware, and a device on which no transfer is open, DONE means an installed image on every run that keeps the assumption, also if an earlier positive result is taken for one of the answers |
| `TransferSpare.StepKeepsSafe` | ota/otaUpdate.py:1443-1562 | the invariant behind it, over every step, loss and restart: the sender is at most one acknowledgment ahead of what the device has accepted, or waits for one that nobody will send, or the image is installed |
| `TransferLeftovers.StaleResultIsBelieved` | lib/mqttCommon/src/mqttCommon.cpp:21-43 | with such a result a run without loss, failure or restart, in which the assumption holds, reaches DONE with nothing put in place |
| `TransferLeftovers.OldCheckIsBelieved` | lib/dataTransfer/src/dataTransfer.cpp:254-301 | the same for an earlier file whose check is still running when the start message is sent |
| `TransferLeftovers.OldSessionIsBelieved` | lib/mqttCommon/src/mqttCommon.cpp:21-43 | for files and firmware: with such a result and an unfinished transfer of the same bytes open, a run reaches DONE with the bytes put in place under that one's name; for a firmware not installed yet, and a file not there yet under another name, that DONE is not true |
| `TransferLeftovers.MaskStaysClear` | lib/mqttCommon/src/mqttCommon.cpp:45-120 | the third condition of the theorem, no "wrong piece number" left in the error mask, holds in every state the device reaches |
| `TransferSuccess.CheckSettles` | lib/dataTransfer/src/dataTransfer.cpp:263-301 | the 64-bytes-a-pass hash ends with a valid result whenever the hash of the data is the announced one |
| `TransferSenderRuns.EveryRunEnds` | ota/otaUpdate.py:1539-1562 | every run is over after a number of passes computed from the piece count, the retries and the timeout, not counting passes within one millisecond of another |
| `TransferSenderRuns.PassLowersWeight` | ota/otaUpdate.py:1539-1562 | each pass lowers the measure over bytes left, retries left and time left, whatever was received, and never raises it while the clock stands |
| `TransferSenderRuns.PublishedPieces` | ota/otaUpdate.py:1498-1524 | no piece goes out more than four times, and each carries the slice at 100 times its number |
| `TransferSender.BaseTransfer.Process` | ota/otaUpdate.py:1539-1562 | one pass drains the queue and acts: state and published messages are those of the specification |
| `TransferSender.BaseTransfer.HandleResponse` | ota/otaUpdate.py:1443-1488 | the new state for every answer; what that means for repeats is in the rows of `TransferRepeats` |
| `TransferSender.BaseTransfer.SendNextPiece` | ota/otaUpdate.py:1507-1524 | publishes the next slice and remembers whether the last one was repeated |
| `TransferSender.BaseTransfer.SendStartMessage` | ota/otaUpdate.py:1434-1441 | publishes the start message and resets the run's counters |
| `TransferSession.SessionIsSafe` | lib/dataTransfer/src/dataTransfer.cpp:144-308 | after one successful begin, through any loss, repetition and order of pieces and any restart, the temp file is a prefix of the data and the target is untouched or complete |
| `TransferSession.BeginOpensSession` | lib/dataTransfer/src/dataTransfer.cpp:43-142 | a successful begin starts a session from every earlier state |
| `TransferSession.RefusedBeginIsHarmlessIff` | lib/dataTransfer/src/dataTransfer.cpp:76-142 | after a begin that fails late, every run up to the next begin leaves what is stored alone, if and only if no earlier check was under way whose hash so far is the one just announced |
| `TransferSession.ExpectedPieceIsStored` | lib/dataTransfer/src/dataTransfer.cpp:144-216 | the awaited piece extends the stored prefix by its bytes, starts the check, or ends the session |
| `TransferSession.OtherPieceIsRefused` | lib/dataTransfer/src/dataTransfer.cpp:149-152 | any other piece number is refused with its own error and changes nothing |
| `TransferSession.RunKeepsSession` | lib/mqttCommon/src/mqttCommon.cpp:21-38 | a pass of the device's task keeps the session and reports success only when the target is delivered |
| `TransferDevice.EncodedPieceDecodes` | lib/dataTransfer/src/dataTransfer.cpp:161-183 | every standard encoding of 1 to 126 bytes passes all size checks and decodes to those bytes |
| `TransferDevice.DecodeIntoBuffer` | lib/dataTransfer/src/dataTransfer.cpp:161-183 | the size checks, the 127-byte buffer and the decoder together are the specified decoding, for every text, as long as the 16-bit piece size does not wrap |
| `TransferDevice.MqttCommon.Store` | lib/dataTransfer/src/dataTransfer.cpp:144-216 | the result, every error branch and the whole new state of `storeBase64` |
| `TransferDevice.MqttCommon.BeginTransfer` | lib/dataTransfer/src/dataTransfer.cpp:43-142 | the refusals in their order, and the new state of `begin` |
| `TransferDevice.MqttCommon.FinalizeTransfer` | lib/dataTransfer/src/dataTransfer.cpp:218-252 | firmware ends the update, a file is reopened for its check |
| `TransferDevice.MqttCommon.RunCheck` | lib/dataTransfer/src/dataTransfer.cpp:254-308 | timeout first, then one step of the current state |
| `TransferDevice.MqttCommon.OnMessage` | lib/mqttCommon/src/mqttCommon.cpp:53-120 | which answer a message gets and what it leaves behind; `StartIsAcceptedIff` and the rows of `TransferErrors` say when |
| `TransferDevice.MqttCommon.RunCommon` | lib/mqttCommon/src/mqttCommon.cpp:21-38 | the result report, once, then a step of the check |
| `Base64.RoundTripIff` | lib/base64/src/base64.cpp:81-106 | data of any length comes back if and only if there is room for it and a terminator and the announced length, which may have wrapped, fits too |
| `Base64.RoundTrip` | lib/base64/src/base64.cpp:3-13 | below the length at which the length function leaves 32 bits, it announces the right length, and room for the terminator is all that is needed |
| `Base64.DecodesIff` | lib/base64/src/base64.cpp:54-79 | characters are decoded if and only if each is of the alphabet, or a NUL behind the last full block |
| `Base64.DecodeCharsOfEncode` | lib/base64/src/base64.cpp:54-79 | full and partial blocks invert the groups of section 4 of RFC 4648 |
| `Base64.EncodeBase64` | lib/base64/src/base64.cpp:15-52 | the output is the RFC 4648 encoding and a terminator, or 0 exactly when the announced length or both do not fit |
| `Base64.DecodeBase64` | lib/base64/src/base64.cpp:81-106 | the output is the specified decoding, or 0, into every buffer that holds what the characters stand for |
| `Base64.FromA3ToA4IsDigits` | lib/base64/src/base64.cpp:108-113 | shifts and masks give the four base-64 digits of the 24-bit group |
| `Base64.BlockInverts` | lib/base64/src/base64.cpp:115-119 | the block helpers invert each other |
| `Base64.LookupOfSymbol` | lib/base64/src/base64.cpp:121-138 | the lookup inverts the alphabet |
| `RCSwitchFrames.TwoRepeatsAreReceived` | lib/RCSwitch/src/RCSwitch.cpp:194-258 | from power-up and any idle gap, two repeats of any nonzero n-bit code, 8 <= n <= 64, each duration measured up to 186 microseconds off, leave a frame of 2n + 2 durations waiting that decodes to that code and length, whatever edges follow |
| `RCSwitchFrames.FurtherOffIsRefused` | lib/RCSwitch/src/RCSwitch.cpp:336-400 | with 187 on the sync gap and one long pulse the decoder refuses the frame |
| `RCSwitchFrames.ShortFrameIsRefused` | lib/RCSwitch/src/RCSwitch.cpp:402-432 | fewer than eight bits are never reported, but for an odd duration behind seven |
| `RCSwitchFrames.LevelRunSeparatesIff` | lib/RCSwitch/src/RCSwitch.cpp:454-507 | between gaps, three level durations that repeat a frame's beginning hand it over if and only if it has more than 25 changes |
| `RCSwitchFrames.OtherLevelRunDrops` | lib/RCSwitch/src/RCSwitch.cpp:454-507 | level durations that repeat nothing end the frame unread |
| `RCSwitchFrames.SpikeIsMerged` | lib/RCSwitch/src/RCSwitch.cpp:507-512 | a spike below 100 microseconds is added to the duration before it |
| `RCSwitchFrames.FullRecordingStartsOver` | lib/RCSwitch/src/RCSwitch.cpp:502-512 | a full recording starts over with the next duration |
| `RCSwitchReceiver.SendAndReceive` | lib/RCSwitch/src/RCSwitch.cpp:298-308 | sender, edges, interrupt handler and `available` together: with measuring errors up to 186 microseconds it reports that code, its length and the pulse length measured |
| `RCSwitchFrames.TwoPacketsAre` | lib/RCSwitch/src/RCSwitch.cpp:206-236 | the edge times of two repeats, as the receiver's interrupt sees them |
| `RCSwitchFrames.RecordsAll` | lib/RCSwitch/src/RCSwitch.cpp:454-514 | every data edge of a frame, as measured, is recorded in its place |
| `RCSwitchFrames.HeaderHandsOver` | lib/RCSwitch/src/RCSwitch.cpp:445-507 | the second sync gap hands the recorded frame over |
| `RCSwitchFrames.FeedKeepsPending` | lib/RCSwitch/src/RCSwitch.cpp:445-452 | no further edge touches a frame that waits to be read |
| `RCSwitchFrames.WaitingFrameDecodes` | lib/RCSwitch/src/RCSwitch.cpp:336-432 | a waiting frame decodes to its code |
| `RCSwitchFrames.DecodesFrameAloneIffTwo` | lib/RCSwitch/src/RCSwitch.cpp:402-421 | the decoder depends on the handed-over durations alone if and only if there are at least two |
| `RCSwitchFrames.OldCodeIsReadAgain` | lib/RCSwitch/src/RCSwitch.cpp:298-308 | from power-up: a 64-bit code is received and read, and two sync gaps, one before and one after the reader releases the buffer, make it arrive again |
| `RCSwitch.Send` | lib/RCSwitch/src/RCSwitch.cpp:194-244 | the waveform is the specified repeats of preamble, header, bits and guard |
| `RCSwitchReceiver.RCSwitchRx.Available` | lib/RCSwitch/src/RCSwitch.cpp:298-308 | with interrupts at every point: what is decoded is the hand-over of the edges up to its look at the buffer, complete and unchanged, and the receiver's state is that of all edges with the buffer released last |
| `RCSwitchReceiver.RCSwitchRx.ReceiveProtocol` | lib/RCSwitch/src/RCSwitch.cpp:336-432 | every buffer access can be interrupted, stays below 131 and inside frames of at least two durations, and the result is that of the frame found |
| `RCSwitchReceiver.RCSwitchRx.HandleInterrupt` | lib/RCSwitch/src/RCSwitch.cpp:454-514 | the arrays and counters after one edge |
| `RCSwitchReceiver.RCSwitchRx.HandOverRecorded` | lib/RCSwitch/src/RCSwitch.cpp:445-452 | the frame is copied only into a free slot |
| `CanOtaSystem.SuccessMeansStored` | lib/canMqttGateway/src/canMqttGateway.cpp:131-181 | over every interleaving, loss, failure and device restart, and with refusals and up to 255 piece acknowledgments left over on the bus, a reported success means that the device took this start and its flash holds exactly the file at its block; until then it holds an exact prefix |
| `CanOtaSystem.StepKeepsInv` | lib/canHandler/src/canHandlerAtmega328P.cpp:120-198 | the invariant on gateway, bus and device survives every step and loss |
| `CanOtaSystem.FittingPieceIsNext` | lib/ota/src/ota.cpp:37-43 | in a session the only piece the device takes is the next one, though its sequence repeats every 256 pieces |
| `CanOtaSystem.FitsIffCongruent` | lib/ota/src/ota.cpp:37-43 | a device that stored k pieces takes piece j for the next one if and only if 256 divides k - j |
| `CanOtaSuccess.TransferSucceeds` | lib/canMqttGateway/src/canMqttGateway.cpp:24-181 | towards every device with room, a run in which nothing is lost and nothing fails ends with the one report, of success, and the file stored |
| `CanOtaSuccess.OversizeIsReported` | lib/ota/src/ota.cpp:13-35 | towards every device without room such a run ends with the one report, of failure, and the device as it was |
| `CanOtaPace.GatewayKeepsPace` | lib/canMqttGateway/src/canMqttGateway.cpp:131-181 | any number of pieces acknowledged no more than five minutes apart go out, and nothing times out or is reported |
| `CanOtaPace.DeviceKeepsPace` | lib/ota/src/ota.cpp:37-66 | any number of pieces with no pass more than three minutes behind the last are all stored in their places |
| `CanOtaPace.StallsIff` | lib/ota/src/ota.cpp:103-113 | a storing device gives an image up if and only if three minutes are over |
| `CanOtaPace.EraseStallsIff` | lib/ota/src/ota.cpp:103-121 | so does one that waits for its chip |
| `CanOtaPace.FailedImageIsErased` | lib/ota/src/ota.cpp:137-146 | an image given up is erased, and no piece fits any more |
| `CanOtaPace.InvalidIsReported` | lib/canHandler/src/canHandlerAtmega328P.cpp:175-198 | the device says so, and the gateway reports the failure |
| `CanOtaPace.RefusalIsReported` | lib/canMqttGateway/src/canMqttGateway.cpp:66-78 | so is any refusal that was waited for |
| `CanOtaPace.FailedPieceIsReported` | lib/canMqttGateway/src/canMqttGateway.cpp:109-122 | and a piece that could not be read or sent |
| `CanOtaPace.ChecksumIsShared` | lib/canMqttGateway/src/canMqttGateway.cpp:80-107 | once one target of an upload has announced the file, the next announces it, with its checksum, on its first pass |
| `CanOtaSuccess.ReliableIffNoStaleEnd` | lib/canMqttGateway/src/canMqttGateway.cpp:66-78 | towards a device in the middle of nothing with at most 255 piece acknowledgments left over, or one that waits for an old piece with none, success is reliable on every run if and only if no positive OTA_END reply is left over |
| `CanOtaSuccess.StaleEndIsBelieved` | lib/canMqttGateway/src/canMqttGateway.cpp:66-78 | with one left over, wherever among other replies, some run reports success before the device got the new start |
| `CanOtaSuccess.OldCheckIsBelieved` | lib/canHandler/src/canHandlerAtmega328P.cpp:175-198 | a device still checking an earlier image makes the gateway report success for a file that never left it |
| `CanOtaLeftovers.OldStartIsBelieved` | lib/canHandler/src/canHandlerAtmega328P.cpp:175-198 | a device still erasing for an earlier transfer of the same file, to whatever block, makes the gateway report success though its own start never arrived |
| `CanOta.StreamCarriesFile` | lib/canMqttGateway/src/canMqttGateway.cpp:80-122 | OTA_START carries the checksum of the whole file, piece k carries its bytes and sequence 7k mod 256, all payloads joined and cut are the file, and the checksum left for the next target is right |
| `CanOta.ChecksumKeepsStream` | lib/canMqttGateway/src/canMqttGateway.cpp:80-107 | 64 bytes a pass add up to the checksum of what was read |
| `CanOta.SequencesRepeat` | lib/canHandler/src/otaCanFrame.hpp:13-17 | two pieces share a sequence if and only if 256 divides their distance |
| `CanOta.StartRoundTrip` | lib/canHandler/src/otaCanFrame.hpp:36-64 | unpacking undoes packing of a start frame |
| `CanOta.RunReportsOnce` | lib/canMqttGateway/src/canMqttGateway.cpp:131-181 | at most one report per transfer, and success only if an OTA_END acknowledgment arrived while one was awaited |
| `CanOta.SilenceEndsTransfer` | lib/canMqttGateway/src/canMqttGateway.cpp:131-181 | passes over more than five silent minutes end every transfer with exactly one report |
| `CanOta.CanOta.StartOta` | lib/canMqttGateway/src/canMqttGateway.cpp:24-64 | accepted exactly for an idle gateway and a readable, non-empty file; every refusal and what it leaves behind |
| `CanOta.CanOta.RunOta` | lib/canMqttGateway/src/canMqttGateway.cpp:131-181 | the whole new state of one pass |
| `CanOta.CanOta.ChecksumOrSendStart` | lib/canMqttGateway/src/canMqttGateway.cpp:80-107 | the next checksum chunk, or the start frame |
| `CanOta.CanOta.SendNextPiece` | lib/canMqttGateway/src/canMqttGateway.cpp:109-122 | the next piece, padded, with its sequence |
| `CanOta.CanOta.HandleOtaCanFrames` | lib/canMqttGateway/src/canMqttGateway.cpp:66-78 | an answer counts only while one is awaited |
| `OtaDevice.StoreExtends` | lib/ota/src/ota.cpp:37-66 | an accepted piece of an image extends what is stored by exactly its bytes, the first two held back |
| `OtaDevice.CheckCompletes` | lib/ota/src/ota.cpp:85-101 | a check that ends VALID leaves exactly the image in its place, and does so whenever checksum and chip agree |
| `OtaDevice.ChunkSums` | lib/ota/src/ota.cpp:68-83 | each pass adds the next bytes of the image, from memory or chip, to the checksum |
| `OtaDevice.ValidMeansChecksum` | lib/ota/src/ota.cpp:103-146 | whatever pieces arrive, VALID means an image of the announced size and checksum, provided no piece fits and no read fails during the check |
| `OtaCheck.ValidVouchesIff` | lib/ota/src/ota.cpp:37-146 | on every run, whatever arrives during the check, VALID means the announced checksum if and only if no fewer bytes than announced have it; from three bytes on that never holds |
| `OtaCheck.Forges` | lib/ota/src/ota.cpp:37-101 | the run that reaches VALID with another image |
| `Crc16Bursts.TwoBytesReach` | lib/crc16/src/crc16.cpp:8-24 | every checksum is that of some two bytes |
| `OtaDevice.Ota.StoreNextData` | lib/ota/src/ota.cpp:37-66 | result and whole new state, both refusals and the failed write included |
| `OtaDevice.Ota.Start` | lib/ota/src/ota.cpp:13-35 | accepted exactly for a size that fits program memory and chip, after an erase |
| `OtaDevice.Ota.Run` | lib/ota/src/ota.cpp:103-146 | stall timeout first, then one step of the state |
| `OtaDevice.Ota.FinishCheck` | lib/ota/src/ota.cpp:85-101 | the two held-back bytes are written only after the checksum matched |
| `Mcp2515Tx.BusKeepsOrder` | lib/CANDriver/src/MCP2515.cpp:138-205 | for every interleaving the bus carries a subsequence of the accepted frames in order, a prefix if no flush timed out |
| `Mcp2515Tx.MCP2515.EndPacket` | lib/CANDriver/src/MCP2515.cpp:138-178 | accepts the frame or returns 0, with the controller sending in between; accepts whenever a buffer is left, the controller is idle or the bus frees up within the timeout, and a refusal means a timed-out flush |
| `Mcp2515Tx.MCP2515.TakeTxBuffer` | lib/CANDriver/src/MCP2515.cpp:180-187 | hands out the next buffer down, empty, and all three again after a flush; none only after one that timed out |
| `Mcp2515Tx.MCP2515.FlushTx` | lib/CANDriver/src/MCP2515.cpp:189-205 | no request is left either way; false exactly if it timed out and cleared what its last round saw pending, which an idle controller or a bus that frees up in time rules out |
| `CanRegisters.McpRoundTrip` | lib/CANDriver/src/MCP2515.cpp:207-261 | a data frame of up to eight bytes with any 11- or 29-bit id is read back unchanged |
| `CanRegisters.McpFilterExactIff` | lib/CANDriver/src/MCP2515.cpp:313-340 | the extended filter is exact if and only if the mask leaves bit 20 out |
| `CanRegisters.McpFilterIs` | lib/CANDriver/src/MCP2515.cpp:313-340 | what the filter compares for every id and mask |
| `CanRegisters.SjaRoundTrip` | lib/CANDriver/src/ESP32SJA1000.cpp:180-263 | the same round trip through the SJA1000 registers |
| `CanRegisters.SjaFilterExact` | lib/CANDriver/src/ESP32SJA1000.cpp:299-321 | the SJA1000 filter is exact for every id and mask |
| `CanRegisters.FilterAcceptsOwnAddress` | lib/canHandler/src/canHandlerBase.hpp:184-192 | both controllers let through exactly the frames addressed to the local id |
| `CanRegisters.ExtIdFields` | lib/canHandler/src/canHandlerBase.hpp:90-118 | the three id fields are read back as written |
| `Crc16.ChunksDoNotMatter` | lib/crc16/src/crc16.cpp:19-24 | the checksum is the same for every way of cutting the data |
| `Crc16.CrcLinear` | lib/crc16/src/crc16.cpp:8-24 | linear over xor from a zero start |
| `Crc16.CrcFeedsBits` | lib/crc16/src/crc16.cpp:8-17 | the byte loop is the bit-serial shift register |
| `Crc16.Checksum.Next` | lib/crc16/src/crc16.cpp:8-17 | the register after one byte |
| `Crc16.Checksum.NextAll` | lib/crc16/src/crc16.cpp:19-24 | the register after an array |
| `Crc16.Calculate` | lib/crc16/src/crc16.cpp:30-35 | the checksum of the data, the initial value for none |
| `Crc16.Verify` | lib/crc16/src/crc16.cpp:37-40 | true exactly for the right checksum |
| `Crc16Bursts.BurstAltersCrc` | lib/crc16/src/crc16.cpp:8-24 | with any odd polynomial every change inside 16 consecutive bits changes the checksum |
| `Crc16Bursts.SixteenBitsInjective` | lib/crc16/src/crc16.cpp:8-17 | different 16-bit inputs lead to different registers |
| `Eeprom.LoadReturnsSaved` | lib/eepromHandler/src/eepromHandler.hpp:36-84 | `load` returns what `save` stored |
| `Eeprom.LoadRejectsDataChange` | lib/eepromHandler/src/eepromHandler.hpp:68-84 | a record changed only within two adjacent data bytes is rejected |
| `Eeprom.LoadRejectsChecksumChange` | lib/eepromHandler/src/eepromHandler.hpp:68-84 | a record changed only in the checksum field is rejected |
| `Eeprom.LoadedExactly` | lib/eepromHandler/src/eepromHandler.hpp:132-135 | `load` accepts exactly the records `save` would have written |
| `Eeprom.Handler.Save` | lib/eepromHandler/src/eepromHandler.hpp:36-56 | true exactly when the commit succeeded and the record reads back; nothing else changes |
| `Eeprom.Handler.Load` | lib/eepromHandler/src/eepromHandler.hpp:68-84 | the data of a valid record, or nothing |
| `SpiFlash.Flash.WriteBytes` | lib/SPIFlash/src/SPIFlash.cpp:156-175 | true, exactly if the chip comes ready around the command of every page touched, means the buffer over its range, bits cleared only; false means a strict prefix of it; for every address and length in the chip |
| `SpiFlash.PageProgramIs` | lib/SPIFlash/src/SPIFlash.cpp:156-175 | a program inside one page of the wrapping chip is a plain write |
| `SpiFlash.ErasedRangeHoldsBuffer` | lib/SPIFlash/src/SPIFlash.cpp:156-175 | over an erased range exactly the buffer, and nothing else changed |
| `SpiFlash.Flash.WaitUntilReady` | lib/SPIFlash/src/SPIFlash.cpp:111-121 | ready exactly if an idle status comes before an all-ones one and the timeout |
| `SpiFlash.Flash.CommandProgram` | lib/SPIFlash/src/SPIFlash.cpp:123-132 | succeeds exactly if the chip comes ready before and after, and then the write-enable latch is set |
| `RingBuffer.CircularBuffer.Put` | lib/CircularBuffer/src/CircularBuffer.hpp:67-73 | appends to the queue; a full one loses its oldest element |
| `RingBuffer.CircularBuffer.Pop` | lib/CircularBuffer/src/CircularBuffer.hpp:75-82 | takes the oldest element, or the default from an empty queue |
| `RingBuffer.CircularBuffer.Peek` | lib/CircularBuffer/src/CircularBuffer.hpp:84-90 | the oldest element, or the default |
| `RingBuffer.CircularBuffer.Size` | lib/CircularBuffer/src/CircularBuffer.hpp:115-120 | the length of the queue |
| `RingBuffer.PutRefines` | lib/CircularBuffer/src/CircularBuffer.hpp:67-73 | the index arithmetic of `put` refines the bounded queue |
| `DfPlayer.TracksInOrder` | lib/dfPlayer/src/dfPlayer.cpp:31-167 | over every run tracks are resolved in the order accepted, each once, after one to six play commands, and reported failed only after six |
| `DfPlayerModule.PlayTakesTheRequest` | lib/dfPlayer/src/dfPlayer.cpp:31-37 | an item is taken if and only if there is room, with the colours asked for and the smaller of the value asked for and the largest; an ordinary one unchanged |
| `DfPlayerModule.PlayedAsAsked` | lib/dfPlayer/src/dfPlayer.cpp:78-167 | over every run the play commands are one block for each accepted track, in order, each with its own track and sent to a module with power, that track's volume and colour; an idle player has switched the module off |
| `DfPlayerModule.CommandsAreTimed` | lib/dfPlayer/src/dfPlayer.cpp:88-127 | over every run each command comes more than 120 ms after its volume command and a second after power, a restarted module was off for a second, and commands are half a second apart |
| `DfPlayerModule.HealthyModulePlaysOnce` | lib/dfPlayer/src/dfPlayer.cpp:46-76 | every track given to a module that answers in time is finished after one command |
| `DfPlayerModule.DeafModuleFails` | lib/dfPlayer/src/dfPlayer.cpp:46-76 | every track given to a module that never answers is reported as failed after six |
| `DfPlayerModule.EdgeCountsForItsTrack` | lib/dfPlayer/src/dfPlayer.cpp:115-139 | an end-of-play edge ends the track it follows, and one from before a command does not count for it |
| `DfPlayer.EveryTrackIsResolved` | lib/dfPlayer/src/dfPlayer.cpp:78-167 | left alone for as many passes as the measure says, not counting those within one millisecond of another, the player is idle and all accepted tracks are resolved |
| `DfPlayer.PassMakesProgress` | lib/dfPlayer/src/dfPlayer.cpp:78-167 | every pass lowers the measure over restarts, retries, state and time, or changes nothing in an unchanged millisecond |
| `DfPlayer.LeftIsBounded` | lib/dfPlayer/src/dfPlayer.cpp:46-76 | the measure is at most 30 000 passes per track |
| `DfPlayer.DFPlayer.Run` | lib/dfPlayer/src/dfPlayer.cpp:78-167 | the whole new state of one pass, queue included |
| `DfPlayer.DFPlayer.Play` | lib/dfPlayer/src/dfPlayer.cpp:31-37 | clamps, and takes the track unless the queue is full, as `PlayTakesTheRequest` says |
| `DfPlayer.DFPlayer.NextStateWaitingForStart` | lib/dfPlayer/src/dfPlayer.cpp:46-76 | started, still waiting, repeated, restarted or given up |
| `MqttStream.Pump` | scripts/mqtt_proxy.py:303-325 | for every way the stream is cut into reads, the packets found are those of the whole stream and the undropped ones go on in order |
| `MqttStream.TakePacket` | scripts/mqtt_proxy.py:168-194 | removes one whole packet, leaves the buffer alone, or finds the length malformed |
| `MqttStream.TakesWholePacket` | scripts/mqtt_proxy.py:168-194 | undoes the length encoding of section 2.2.3 of MQTT 3.1.1 for every body four bytes can announce |
| `MqttStream.FramingUndone` | scripts/mqtt_proxy.py:303-325 | a stream of standard packets is cut exactly where they end |
| `MqttStream.PacketsArePrefix` | scripts/mqtt_proxy.py:303-325 | the packets joined are a prefix of the stream |
| `MqttStream.FrontIsStable` | scripts/mqtt_proxy.py:168-194 | bytes that follow change neither a packet nor a malformed one |
| `MqttStream.UndroppedAt` | scripts/mqtt_proxy.py:250-254 | a packet is missing from the output exactly when a rule drops it, and otherwise arrives in its place |
| `MqttStream.TypeRuleLosesType` | scripts/mqtt_proxy.py:250-254 | a rule without numbers loses exactly the packets whose first byte has its type |
| `MqttStream.NumberedRuleLosesOne` | scripts/mqtt_proxy.py:250-254 | a rule with one number loses exactly the packet with that number among those of its type |
| `MqttStream.OtherRuleLosesNothing` | scripts/mqtt_proxy.py:250-254 | a rule for the other sender loses nothing |
| `MqttStream.WaitsForWholePacket` | scripts/mqtt_proxy.py:168-194 | of a packet the standard allows no strict prefix is taken or called malformed |
| `MqttStream.MalformedIff` | scripts/mqtt_proxy.py:168-194 | malformed is exactly a length whose first four bytes all announce another |
| `MqttStream.TransparentWithoutRules` | scripts/mqtt_proxy.py:303-325 | without rules what goes on is a prefix of what came in |
| `Commissioner.NoteKeepsInv` | lib/canCommissioner/src/canCommissioner.cpp:73-99 | no unique id holds two slots, and no absent, unexpired node was heard later than a listed one |
| `Commissioner.ExpiryKeepsInv` | lib/canCommissioner/src/canCommissioner.cpp:62-71 | the same for an expiry pass, which drops exactly the nodes silent for 30 s |
| `Commissioner.CanCommissioner.NoteAnnouncement` | lib/canCommissioner/src/canCommissioner.cpp:73-99 | an announcement from a provisional address goes to its slot, with that address and the time, and changes no other; anything else changes nothing; the table's promises are kept |
| `Commissioner.CanCommissioner.FindSlot` | lib/canCommissioner/src/canCommissioner.cpp:78-92 | the node's own slot, else a free one, else the one heard longest ago |
| `Commissioner.CanCommissioner.Run` | lib/canCommissioner/src/canCommissioner.cpp:62-71 | which nodes stay listed |
| `Backoff.EachFailureCostsOneRung` | lib/connectivity/src/connectivity.cpp:80-103 | from an empty store, after k failed boots, returned or killed, the next waits rung min(k, 6) |
| `Backoff.EarlyFailureForgets` | lib/connectivity/src/connectivity.cpp:30-44 | a boot that fails before the wait restarts the climb at rung 1 |
| `Backoff.EarlyFailureCostsOneRungIff` | lib/connectivity/src/connectivity.cpp:30-44 | it costs one rung, as every other failure does, if and only if none was owed |
| `Backoff.LadderMoves` | lib/connectivity/src/connectivity.cpp:313-346 | a pass leaves the rung, climbs one on a due failed attempt, or resets exactly on an online pass more than five minutes after the stamp |
| `Backoff.AttemptsAreSpaced` | lib/connectivity/src/connectivity.cpp:313-324 | over every run, after a pass that tried or found the connection alive, the ladder's next attempt comes more than a full delay later, at least that of the rung left while the device stays offline |
| `Backoff.OutageFollowsLadder` | lib/connectivity/src/connectivity.cpp:313-324 | over every outage, with a pass every so often: k attempts have taken more than k delays, one more is not overdue, and each has cost one rung |
| `Backoff.NetworkReturnDoesNotWait` | lib/connectivity/src/connectivity.cpp:297-306 | when the network returns a pass tries at once, and its failure costs no rung |
| `Backoff.OnlineBootsKeepRung` | lib/connectivity/src/connectivity.cpp:80-103 | boots that come online leave the rung as it was |
| `Backoff.ResetIsEarnedIff` | lib/connectivity/src/connectivity.cpp:313-346 | over every run, a reset comes after five minutes on one connection if and only if the device was online on the pass before, this pass makes no connection, and none made since the stamp is younger than that |
| `Backoff.SilentReconnectResetsAtOnce` | lib/connectivity/src/connectivity.cpp:316-346 | a connection lost and made again in one pass clears the ladder at once |
| `Backoff.EarlierReconnectResetsEarly` | lib/connectivity/src/connectivity.cpp:316-346 | so does a younger connection than the stamp, later |
| `Backoff.LongOutageResetsAtOnce` | lib/connectivity/src/connectivity.cpp:326-346 | after a longer outage the first online pass clears the ladder |
| `Backoff.Boot` | lib/connectivity/src/connectivity.cpp:30-103 | what a boot waits and what it leaves in the store |
| `Backoff.Connectivity.Run` | lib/connectivity/src/connectivity.cpp:295-346 | the whole new state of a pass and its connection attempts, in the source's order |
| `Backoff.ReconnectBackoff.Restore` | lib/common/src/reconnectBackoff.hpp:44-48 | a stored rung past the ladder is clamped to the top |
| `Backoff.ReconnectBackoff.OnFailure` | lib/common/src/reconnectBackoff.hpp:36-38 | one rung up, stopping at the top |

## Assumptions about what is not modelled

- The platform's `Update` object accepts an image at its end only if it is complete and has the announced MD5. MD5
  itself is an arbitrary predicate on bytes and hash strings; the device's error mask is a set of flags.
- A sender pass reads the clock once; `on_connect` fires once per run; messages that are not an answer object
  are `Untyped`. Channels keep order and lose anything; they do not corrupt or invent messages.
- Answers carry no piece number on the wire; the system models tag each with what it is about, and pieces with
  their number, only so that the assumption and the invariants can be stated. No operation reads the tags.
- The MCP2515 transmits whole frames and honours a cleared request unless the frame is already out. A NOR page
  program without the write-enable latch is ignored. Unfinished writes of the flash leave a prefix.
- Times are integers; where the source's 32-bit clock wraps, the wrap is written out in `Common.ElapsedSince`.
- The commissioning table's order claim is for times within one wrap of the clock, as `elapsedSince` requires.

## Left out

- `ota/otaUpdate.py`: menu, configuration, provisioning, preflight and post-transfer verification by discovery messages.
- `DFPlayerMiniFast`: the serial packet parser and its checksum; it would add only easy members.
- `packSend` and `unpackSend`: a copy of seven bytes and a sequence byte.
- `parseUid`, `formatUid`, `formatWaiting` and `assign` of the commissioner: hex text and one lookup in the table.
- Remote-transmission requests, bus-off recovery, the SJA1000's transmit timeout and bit timing.
- CanOta.CanOta.StartOta: the image record the targets of one upload share is passed in and read back as a value; simultaneous use of it by two targets is not captured.
- CanOtaSystem.SuccessMeansStored: nothing is on its way to the device when the transfer starts. What the boot loader does with the stored image is not covered.
- Base64.EncodeBase64: a wrapped 32-bit length that passes the first test must still fit the buffer.
- Base64.RoundTrip: 32-bit lengths that wrap are in RoundTripIff, not here.
- Base64.DecodeBase64: the output array must hold what the characters stand for; the source checks only the announced length before it writes.
- TransferDevice.DecodeIntoBuffer: texts of 87 380 characters and more, where the 16-bit piece size wraps and the 127-byte buffer need not hold what is decoded; an MQTT packet here has at most 1024 bytes.
- TransferDevice.MqttCommon.OnMessage: command messages, and messages with missing fields, which are logged and not answered as a transfer.
- TransferLeftovers.ReliableIffNoResultWaits: ordinary files. For a firmware the condition is not needed where no transfer is open (TransferSpare.FirmwareToleratesResult) and needed where an unfinished transfer of the same bytes is (OldSessionIsBelieved); other unfinished transfers are not decided.
- SpiFlash.Flash.WriteBytes: addresses and lengths inside the chip only; beyond it the three address bytes wrap.
- MqttStream.Pump: a failing socket ends the pump early; then what went on is a prefix. Injected packets and the trace output are not modelled.
- RCSwitchFrames.TwoRepeatsAreReceived: no spikes inside the frame; SpikeIsMerged says what one does to a single duration.
- Backoff.NetworkReturnDoesNotWait: whether the attempt at the network's return succeeds does not matter to the ladder and is not a parameter; the connection it makes is part of what the pass then finds.
- The restart of a device that stays offline for too long, at the end of `Connectivity::run`.
- Eeprom.Handler.Save: the platform's initialisation of the store and null pointers.
- Logging, LEDs, Home Assistant discovery, topics and sensor drivers.
