# MicroBCSP, verified

A Dafny model of the BCSP link of `ble-hci-bridge`: the MicroBCSP engine (`src/ubcsp.c`), which carries HCI packets
reliably over a UART, and the host side that feeds it (`src/uart_bcsp_hci.c`), the command queue and the
one-command-window loop.

The engine is described at three levels, and the levels are connected by proof.

1. **Octets, in place.** `Engine.MicroBcsp` is an object with the engine's record, its UART and its buffers, which
   change in place: send pointers with offsets and counts, the header, acknowledgement, CRC and receive buffers.
   Its methods follow the functions of `ubcsp.c` branch by branch and loop by loop. `Abs()` reads it as a value of
   `EngineSpec`, and each method is proved to do to that value what the function of `EngineSpec` says.
2. **Octets, as values.** About `EngineSpec`, `Transmission` proves what goes out over a run of polls and
   `FrameReception` what is made of the octets that come in. `Crc`, `Slip` and `Framing` hold the coding, and
   `OnTheLine` says in numbers where every field is and what whole frames look like.
3. **Frames.** `FrameLevel` has the two functions that decide the protocol, `NextFrame` and `Accept`, and `EngineSpec`
   calls them. `FrameLevelRuns` treats one engine; `Sessions` proves that every interleaving of polls and host calls
   is one of its runs. `TwoEngines` joins two engines by channels that keep frames in order and may lose any of
   them, and proves delivery; `Progress` proves that such a system never wedges, `Replacement` what it costs to
   replace a pending packet, and `DeadLink` what a restarted peer can do to it.

`OctetSystem` joins two engines of the second level octet by octet, with complete frames that may be lost or damaged and
fragments of abandoned ones in between, and proves that every run of theirs is a run of `TwoEngines`; so delivery holds
of what the hosts get octet by octet.

`Host` has the queue and the loop of `uart_bcsp_hci.c`, down to the calls into the engine; each of its rounds is a
session of `Sessions`.

The SLIP octets are those of the PROTOCOL section of RFC 1055. The CRC is the one of Appendix C.2 of RFC 1662
without the final complement, bit-reversed before it is sent. BCSP itself is defined by the code.

## What the code does not keep

Each of these is a theorem below, with the exact condition.

- Link establishment can die. The table goes wrong if and only if a reset happens while a CONF RESP is pending
  (`FrameLevel.LeConsistentStep`). Then one last SYNC is started, and with it the link is dead if and only if no SYNC,
  SYNC RESP or CONF RESP was received in between (`DeadLink.ResetWhileConfirmingKills`). From then on the engine
  starts no SYNC, SYNC RESP or CONF; a SYNC RESP and then a CONF still draw a CONF RESP from it, but only a host that
  initializes it or a CONF RESP brings it back (`DeadLink.MuteStep`, `DeadLink.StaysMute`, `DeadLink.DeadStaysDead`);
  and a restarted peer whose one SYNC did this, and which is never asked for it, never sends that CONF RESP
  (`DeadLink.PeerRestartIsFatal`).
- A data packet with an empty payload is never finished: header after header, without CRC and without a closing
  FRAME (`Transmission.EmptyPayloadForever`). `Transmission.FrameGoesOut` covers every other frame.
- An escape code left over from an abandoned frame takes the place of a header octet of the next one
  (`Transmission.SpoiledFrameGoesOut`). A frame goes out as it should if and only if no code is left over
  (`Transmission.ProperWithoutCode`), and a receiver with room for a spoiled one never takes it for a frame
  (`Transmission.SpoiledIsRefused`). Any frame with a FRAME or ESCAPE octet in its body can be abandoned so
  (`Sessions.SessionSpoils`), even by a host that waits for the report that it was sent: the acknowledgement may come
  in the middle of an escape sequence of a retransmission (`FrameReception.SentDoesNotProtect`).
- An acknowledgement cut short by a new packet goes out again with that packet, unless the packet is gone by then and
  nothing has asked for an acknowledgement again; then it is forgotten until the peer repeats itself
  (`FrameLevelRuns.CutAckIsSentAgain`, `FrameLevelRuns.CutAckIsForgotten`).
- A packet fits the host's buffer only with its two CRC octets (`FrameReception.ArrivedFrame`).
- The queue runs out of slots by use and not by occupancy (`Host.SlotsRunOut`).
- The comment at `ubcsp.c:170-171` lets a packet be submitted only after the previous one was reported sent. The host
  loop breaks this exactly when an operation is outstanding, another one waits, and since the first a packet was
  received or the wait timed out (`Host.WindowIgnoresSent`). What it costs: if the peer has already accepted the
  pending packet, the new one goes out under the old number, is refused as a duplicate, and is retired and reported
  sent without ever being delivered (`Replacement.ReplacedStaysLost`, `Replacement.ReplacedIsLost`). What holds for the
  host of this repository is `TwoEngines.OncePerNumberDelivery`: of the packets handed over under one number, exactly
  one is delivered.
- The comment's contract is enough for a host that takes it at its word: if every packet, the first one included, is
  submitted only after a report that a packet was sent, delivery is exactly once and in order
  (`TwoEngines.ContractDelivers`, and octet by octet `OctetSystem.OctetsContractDelivers`). "Sent" misleads only a host
  that submits before its first report: that report comes when the link becomes active, with the packet still pending
  (`Sessions.SentMeans`, `TwoEngines.EarlySubmissionIsReplaced`). A packet that a resetting SYNC retires is not
  reported at all (`Sessions.SentIsNotRetired`).

## Model

| member | source | states |
|---|---|---|
| Crc.StepIsBitSerial | ble-hci-bridge/src/ubcsp.c:220-238 | the two table lookups of one octet are eight steps of the bit-serial register with polynomial 0x8408, for every octet and register |
| Crc.CrcIsBitSerial | ble-hci-bridge/src/ubcsp.c:464-478 | over any octet sequence the table CRC is the bit-serial CRC of its bits, low bit of each octet first |
| Crc.CrcConcat | ble-hci-bridge/src/ubcsp.c:861-866 | the CRC streamed block by block is the CRC recomputed over header and payload together |
| Crc.FeedInjective | ble-hci-bridge/src/ubcsp.c:220-238 | whatever the message, its effect on the 16-bit register is one-to-one |
| Crc.BurstDetected | ble-hci-bridge/src/ubcsp.c:464-501 | messages of any length that differ, and differ only within sixteen consecutive bits, have different CRCs |
| Crc.OddErrorsDetected | ble-hci-bridge/src/ubcsp.c:464-501 | messages that differ in an odd number of bits, anywhere, have different CRCs |
| Crc.ReverseIsAnInvolution | ble-hci-bridge/src/ubcsp.c:240-264 | reversing the sixteen bits twice gives the register back |
| Crc.CrcReverse | ble-hci-bridge/src/ubcsp.c:248-264 | the sixteen-round loop puts bit i at bit 15 - i |
| Slip.EncodeIsTransparent | ble-hci-bridge/src/ubcsp.c:278-303 | an encoding holds no FRAME octet, and every ESCAPE in it is followed by one of the two escape codes |
| Slip.DecodeEncode | ble-hci-bridge/src/ubcsp.c:1086-1132 | the one-flag decoder recovers exactly the octets encoded and ends with no escape pending |
| Slip.DecodeEncodeInPieces | ble-hci-bridge/src/ubcsp.c:1082-1157 | the same wherever the encoding is cut in two |
| Framing.HeaderRoundTrip | ble-hci-bridge/src/ubcsp.c:980-1000 | for lengths up to 4095 the receiver unpacks the fields the sender packed, and the checksum holds |
| Framing.BodyIsIntact | ble-hci-bridge/src/ubcsp.c:383-524 | every frame a sender builds passes the checksum, length and CRC checks and comes apart into its fields and payload |
| Framing.DamageIsDetected | ble-hci-bridge/src/ubcsp.c:462-501 | header and payload hit by a burst of at most sixteen bits or by an odd number of bit errors fail the checks, as long as the CRC flag and the CRC octets survive |
| OnTheLine.HeaderOctets | ble-hci-bridge/src/ubcsp.c:980-1000 | as numbers: octet 0 is 128 if reliable + 64 with a CRC + 8 times the acknowledgement number + the sequence number, octet 1 is channel mod 16 + 16 times (length mod 16), octet 2 is length / 16 |
| OnTheLine.ChecksumRead | ble-hci-bridge/src/ubcsp.c:383-403 | any four octets pass the header check if and only if they add up to 0xff modulo 256 |
| OnTheLine.FieldsRead | ble-hci-bridge/src/ubcsp.c:405-420 | the number each field is read as, from any four octets, damaged or not |
| OnTheLine.CrcNumber | ble-hci-bridge/src/ubcsp.c:888-905 | the two CRC octets are the reversed register, high octet first |
| OnTheLine.StartedHeader | ble-hci-bridge/src/ubcsp.c:972-1035 | the header octets, as numbers, of the data or ack frame that is started, from the state of the link: an ack frame has sequence number, channel and length 0 |
| OnTheLine.LeFramesOnTheLine | ble-hci-bridge/src/ubcsp.c:56-75 | the four link establishment frames as literal octets from FRAME to FRAME, with their checksum and CRC |
| OnTheLine.StuffedOctets | ble-hci-bridge/src/ubcsp.c:278-303 | 0xC0 travels as 0xDB 0xDC, 0xDB as 0xDB 0xDD, every other octet as itself |
| OnTheLine.OctetRead | ble-hci-bridge/src/ubcsp.c:1086-1132 | for any octets read since a frame boundary and any octet: after an odd number of ESCAPE octets it belongs to the frame even if it is FRAME (0xC0 for 0xDC, 0xDB for 0xDD, else what the unchecked table index reads); otherwise FRAME starts a new frame |
| FrameLevel.WhichLeOctets | ble-hci-bridge/src/ubcsp.c:56-64 | the four link establishment payloads are told apart |
| FrameLevel.LeConsistentStep | ble-hci-bridge/src/ubcsp.c:108-122 | every event keeps the table consistent (a pending CONF RESP needs an initialized link, nothing left to send means active) except a reset with a CONF RESP pending, which always breaks it |
| FrameLevelRuns.AcceptDelivers | ble-hci-bridge/src/ubcsp.c:528-726 | for every link and every frame, exactly when a packet is retired, when a payload is delivered (an unreliable one whatever its number, a reliable one only in sequence), and when RECEIVED, ACK, RESET and SENT are reported |
| FrameLevelRuns.AcceptPrompts | ble-hci-bridge/src/ubcsp.c:528-675 | exactly when a frame cancels the delay and when it abandons the frame being sent |
| FrameLevelRuns.AcceptNumbers | ble-hci-bridge/src/ubcsp.c:528-707 | what every frame makes of both numbers, the ack request and the pending packet |
| FrameLevelRuns.TableIsRule | ble-hci-bridge/src/ubcsp.c:108-122 | the nine entries of the table as a rule, one if-and-only-if for each frame |
| FrameLevelRuns.SyncIsAnswered | ble-hci-bridge/src/ubcsp.c:578-609 | the second frame started after a SYNC that does not find the link active is a SYNC RESP |
| FrameLevelRuns.ConfIsAnswered | ble-hci-bridge/src/ubcsp.c:628-646 | of the next two frames started after a CONF that finds the link initialized one is a CONF RESP |
| FrameLevelRuns.AnsweredOnce | ble-hci-bridge/src/ubcsp.c:972-1047 | a CONF RESP is not repeated, and an acknowledgement goes out with one frame, after which there is nothing to send or the same data frame again |
| FrameLevelRuns.CountersCount | ble-hci-bridge/src/ubcsp.c:528-552 | over every run the sequence number is the number of packets retired, and the acknowledgement number the number delivered in sequence, modulo 8, since the last initialization |
| FrameLevelRuns.ReliablePayloadOwesAck | ble-hci-bridge/src/ubcsp.c:677-707 | a reliable payload in the active state, in sequence or not, and any damaged frame make the engine owe an acknowledgement; delivery happens exactly in sequence |
| FrameLevelRuns.AckStaysOwed | ble-hci-bridge/src/ubcsp.c:972-1040 | an acknowledgement owed stays owed over every run until a data or ack frame with the acknowledgement number of that moment is started |
| FrameLevelRuns.RunIsConsistent | ble-hci-bridge/src/ubcsp.c:953-1077 | without a reset while a CONF RESP is pending, data and ack frames are started only in the active state |
| FrameLevelRuns.CutAckIsSentAgain | ble-hci-bridge/src/ubcsp.c:972-1004 | when the frame carrying the acknowledgement is cut short by a new packet, the next data or ack frame is that packet with the number of that moment unless the packet is gone, and then an ack frame if and only if one was asked for again |
| FrameLevelRuns.CutAckIsForgotten | ble-hci-bridge/src/ubcsp.c:528-547 | a data frame with the acknowledgement is cut short, the peer's acknowledgement of the old packet retires the new one, and nothing is left to send |
| DeadLink.MuteStep | ble-hci-bridge/src/ubcsp.c:108-122 | for every state and action: the one way in which an engine that is not active loses everything it had to establish, and the two ways out of it |
| DeadLink.StaysMute | ble-hci-bridge/src/ubcsp.c:953-1075 | over every run such an engine stays so at each moment if and only if it is neither initialized nor receives a CONF RESP |
| DeadLink.DeadStaysDead | ble-hci-bridge/src/ubcsp.c:953-1075 | with no CONF RESP to start either, over every run the link stays dead if and only if nothing revives it: an initialization, a CONF RESP, or a CONF once it is initialized |
| DeadLink.ResetWhileConfirmingKills | ble-hci-bridge/src/ubcsp.c:581-600 | after any reset with a CONF RESP pending one SYNC is started, and kills the link if and only if no SYNC, SYNC RESP or CONF RESP was received before it |
| DeadLink.FromInitializedToDead | ble-hci-bridge/src/ubcsp.c:567-668 | five frames received lead there from a freshly initialized engine |
| DeadLink.NeverSettles | ble-hci-bridge/src/ubcsp.c:610-668 | while no CONF is left that the peer could answer, no moves of engines, hosts and channels ever make the mute engine active |
| DeadLink.OneSyncDooms | ble-hci-bridge/src/ubcsp.c:581-600 | until then, whatever the peer, the hosts and the channels do, the link is left uninitialized with the CONF RESP still pending |
| DeadLink.PeerRestartIsFatal | ble-hci-bridge/src/ubcsp.c:581-600 | the peer of an engine with a CONF RESP pending and no CONF on its way restarts: if the engine reads exactly one SYNC before it next starts a frame, and after it no SYNC RESP or CONF RESP, no handshake between them is ever completed again, whatever else happens before and after |
| TwoEngines.MoveKeeps | ble-hci-bridge/src/ubcsp.c:528-726 | every move of either engine, and every loss, keeps the invariant that ties both histories to the frames in flight |
| TwoEngines.OncePerNumberDelivery | ble-hci-bridge/src/ubcsp.c:677-707 | in every reachable state, both ways, even if hosts replace pending packets: of every number in order exactly one of the packets handed over under it is delivered, retired follows delivered, and they differ by at most one |
| TwoEngines.ExactlyOnceDelivery | ble-hci-bridge/src/ubcsp.c:677-707 | with hosts that submit only when nothing is pending, in every reachable state, both ways: delivered is a prefix of handed over, retired a prefix of delivered, and they differ by at most one |
| TwoEngines.ContractDelivers | ble-hci-bridge/src/ubcsp.c:170-171 | the contract the engine asks of its host is enough: with every packet, the first one included, submitted only after a report that a packet was sent, delivery is exactly once and in order both ways |
| TwoEngines.EarlySubmissionIsReplaced | ble-hci-bridge/src/ubcsp.c:648-663 | a packet submitted before the first report is still pending at that report, and the next one takes its number |
| TwoEngines.WindowInvariant | ble-hci-bridge/src/ubcsp.c:982-988 | acknowledgements in flight are for n or n + 1 packets and data frames in flight carry number m - 1 or m and a packet handed over under it, so three bits suffice |
| TwoEngines.AckTestIsRight | ble-hci-bridge/src/ubcsp.c:528-552 | the test ack != seq retires a packet exactly when the acknowledgement is for the pending one |
| TwoEngines.NoFalseAckNoReset | ble-hci-bridge/src/ubcsp.c:528-600 | a link establishment frame (acknowledgement field 0) arrives only while nothing has been retired, retires nothing, and no frame is taken for a restart of the peer |
| TwoEngines.HandshakeAgreement | ble-hci-bridge/src/ubcsp.c:567-668 | if one side is active the other is initialized; a CONF RESP in flight comes from an initialized engine; no SYNC travels towards an active engine or behind a CONF RESP |
| TwoEngines.LinkNeverDecreases | ble-hci-bridge/src/ubcsp.c:604-668 | no move takes a link state back |
| Progress.EveryRoundIsCloser | ble-hci-bridge/src/ubcsp.c:1049-1077 | as long as the handshake is unfinished, one frame each way advances a link state or brings down a rank of at most five, and so a distance of at most 26 |
| Progress.HandshakeIsBounded | ble-hci-bridge/src/ubcsp.c:1049-1077 | after 26 rounds without losses the handshake is complete on both sides and stays so |
| Progress.NeverStuck | ble-hci-bridge/src/ubcsp.c:953-1077 | from every reachable state, whatever was lost, some continuation completes the handshake and gets every number used delivered and acknowledged; beyond what is lost in it, 112 moves are enough |
| Replacement.GoesOutAsDuplicate | ble-hci-bridge/src/ubcsp.c:684-687 | a packet that replaces one the peer has already accepted goes out under that number and is refused |
| Replacement.ReplacedStaysLost | ble-hci-bridge/src/ubcsp.c:170-186 | such a packet is never delivered, whatever happens afterwards, unless it is handed over again |
| Replacement.ReplacedIsLost | ble-hci-bridge/src/ubcsp.c:528-552 | and some continuation gets it acknowledged, while nothing more is delivered |
| Engine.MicroBcsp.constructor | ble-hci-bridge/src/ubcsp.c:89-131 | the static record at start, with nothing pending |
| Engine.MicroBcsp.InitializeRecord | ble-hci-bridge/src/ubcsp.c:147-163 | resets counters, transmission, receive index, delay and link state, and leaves packets, response, ack request and escape flags |
| Engine.MicroBcsp.SubmitPacket | ble-hci-bridge/src/ubcsp.c:175-186 | replaces the packet to send and abandons the frame being sent |
| Engine.MicroBcsp.ReceiveInto | ble-hci-bridge/src/ubcsp.c:198-207 | arms the receiver with the host's packet, waiting for a header |
| Engine.MicroBcsp.PutSlipUart | ble-hci-bridge/src/ubcsp.c:278-303 | one octet on the line, and the escape code remembered |
| Engine.MicroBcsp.SetupPacket | ble-hci-bridge/src/ubcsp.c:740-767 | pointers to header and second block, the checksum computed into the engine's own header buffer, CRC preset; a pending escape code displaces a header octet |
| Engine.MicroBcsp.FinishBlock | ble-hci-bridge/src/ubcsp.c:880-931 | the next block, or the reversed CRC, or the closing FRAME with the pending unreliable packet dropped as sent |
| Engine.MicroBcsp.ContinueFrame | ble-hci-bridge/src/ubcsp.c:846-952 | the sending half of a poll in the middle of a frame |
| Engine.MicroBcsp.StartFrame | ble-hci-bridge/src/ubcsp.c:953-1079 | the sending half of a poll between frames: the frame that NextFrame chooses, set up with the right header |
| Engine.MicroBcsp.TransmitNow | ble-hci-bridge/src/ubcsp.c:838-1079 | the whole sending half of a poll does to the record what Transmit says |
| Engine.MicroBcsp.WhichLePayload | ble-hci-bridge/src/ubcsp.c:315-347 | the two nested loops find which link establishment payload the buffer starts with, 5 if none |
| Engine.MicroBcsp.CheckPayload | ble-hci-bridge/src/ubcsp.c:435-524 | the length and CRC checks hold exactly when the frame is intact |
| Engine.MicroBcsp.AcceptPacket | ble-hci-bridge/src/ubcsp.c:526-726 | everything after the checks does what Accept says to link, transmission, delay and the host's packet |
| Engine.MicroBcsp.ReceivedPacketNow | ble-hci-bridge/src/ubcsp.c:358-726 | a collected frame is refused or accepted, and a delivery leaves channel, reliable bit, length and payload in the host's packet |
| Engine.MicroBcsp.ReceiveAll | ble-hci-bridge/src/ubcsp.c:1081-1157 | the receive loop reads the UART until it is empty or the packet has been handed over, in place |
| Engine.MicroBcsp.PollOnce | ble-hci-bridge/src/ubcsp.c:826-1177 | a whole poll: output, what is left to read, activity, returned delay, new state and delivery |
| Transmission.AdvanceSends | ble-hci-bridge/src/ubcsp.c:846-931 | each call puts out exactly one octet more of the stuffed frame still to send, and the last one the closing FRAME too |
| Transmission.FrameGoesOut | ble-hci-bridge/src/ubcsp.c:826-931 | over 1 + encoded length polls, whatever is received meanwhile short of abandoning the frame, the line sees FRAME, stuffed header, payload and reversed CRC, FRAME, and nothing else |
| Sessions.NeverCutIsUndisturbed | ble-hci-bridge/src/ubcsp.c:581-668 | what FrameGoesOut and RoundTrip ask of the frames received meanwhile: no CONF RESP while the link is not active, no SYNC while it is |
| Sessions.PollCuts | ble-hci-bridge/src/ubcsp.c:648-663 | a poll in the middle of a frame goes on with it if and only if it receives neither of these |
| Transmission.RetransmissionPeriod | ble-hci-bridge/src/ubcsp.c:1159-1176 | an unacknowledged packet is sent again unchanged exactly every 1 + encoded length + 25 silent polls, for any number of periods |
| Transmission.EmptyPayloadIsNeverFinished | ble-hci-bridge/src/ubcsp.c:884-895 | a packet without payload: FRAME and header only, no CRC, no closing FRAME, no delay, and the same again |
| Transmission.EmptyPayloadForever | ble-hci-bridge/src/ubcsp.c:884-895 | and that for any number of repetitions, nothing but FRAME and header, over and over |
| Transmission.HeaderAloneIsRefused | ble-hci-bridge/src/ubcsp.c:438-456 | and such a header fails every receiver's length check |
| Transmission.SpoiledFrameGoesOut | ble-hci-bridge/src/ubcsp.c:850-880 | what exactly goes out when an escape code is still pending from an abandoned frame |
| Transmission.SpoiledIsDifferent | ble-hci-bridge/src/ubcsp.c:850-880 | and that is never the frame that was meant, for either escape code and any frame |
| Transmission.ProperWithoutCode | ble-hci-bridge/src/ubcsp.c:850-880 | so a frame goes out as it should if and only if no escape code is left over when it is started |
| Transmission.SpoiledIsRefused | ble-hci-bridge/src/ubcsp.c:435-501 | a receiver with room for all of it never takes a spoiled frame for a frame |
| Transmission.SpoiledHeader | ble-hci-bridge/src/ubcsp.c:383-403 | its header passes the checksum if and only if the code happens to be the checksum octet it displaced |
| Transmission.EscapeComesUp | ble-hci-bridge/src/ubcsp.c:850-858 | any frame with a FRAME or ESCAPE octet in its body comes, some polls later, to a moment at which a packet submitted finds an escape code left over |
| Sessions.SessionSpoils | ble-hci-bridge/src/ubcsp.c:175-186 | so for every such frame there is a session of polls and one submission after which the next frame goes out spoiled |
| Sessions.SessionKeepsCode | ble-hci-bridge/src/ubcsp.c:278-303 | over every session what can be left over is nothing or one of the two escape codes |
| FrameReception.SentDoesNotProtect | ble-hci-bridge/src/ubcsp.c:528-552 | the acknowledgement of a packet can arrive in the middle of an escape sequence of its retransmission, so that a packet submitted after the report finds the code left over |
| FrameReception.PollsCollect | ble-hci-bridge/src/ubcsp.c:1134-1152 | over every run of polls and every octet stream the receiver has stored the longest fitting prefix of the frame being read, with its index between -4 and the capacity |
| Sessions.SessionCollects | ble-hci-bridge/src/ubcsp.c:198-207 | the same over every session, with new buffers and initializations, which start a new frame and keep the escape flag |
| FrameReception.Verdict | ble-hci-bridge/src/ubcsp.c:1098-1121 | at a FRAME octet: incomplete headers vanish, a frame that fails a check only requests an acknowledgement, an intact one goes to the link |
| FrameReception.ArrivedFrame | ble-hci-bridge/src/ubcsp.c:443-521 | an undamaged frame reaches the link exactly as sent if payload plus two CRC octets fit, and is refused otherwise |
| FrameReception.DamagedFrame | ble-hci-bridge/src/ubcsp.c:462-501 | a frame damaged in a burst or in an odd number of bits only requests an acknowledgement |
| FrameReception.PlainFrameArrives | ble-hci-bridge/src/ubcsp.c:503-521 | a frame without a CRC reaches the link as it was sent if its payload fits the buffer, and is refused otherwise |
| FrameReception.FrameCompletes | ble-hci-bridge/src/ubcsp.c:1082-1157 | however a frame was spread over polls, its last piece hands exactly that frame to the link as it is then |
| FrameReception.RoundTrip | ble-hci-bridge/src/ubcsp.c:1098-1126 | the octets one engine emits for a frame, in any pieces over the other engine's own polls, give exactly one of these polls that frame; if reliable and in sequence, it delivers that channel and payload and reports RECEIVED and ACK; if unreliable, it delivers them whatever the number and reports RECEIVED alone |
| FrameReception.Resynchronises | ble-hci-bridge/src/ubcsp.c:1086-1121 | after any junk one whole frame brings an engine that still waits to a frame boundary with no escape pending |
| FrameReception.AtMostOneFrameLost | ble-hci-bridge/src/ubcsp.c:1082-1157 | of two whole frames after any junk the second always reaches the link as it was sent |
| Sessions.PollIsRun | ble-hci-bridge/src/ubcsp.c:826-1177 | the link after a poll is the link after at most one frame started or finished and then the frames received |
| Sessions.AtMostOnePerPoll | ble-hci-bridge/src/ubcsp.c:1082-1084 | a poll retires at most one packet, delivers at most one, and reports a delivery exactly when the link makes one |
| Sessions.ReceivedMeans | ble-hci-bridge/src/ubcsp.c:677-719 | a poll reports RECEIVED if and only if it hands over a packet, never an empty one, and only then is the receiver disarmed |
| Sessions.SentMeans | ble-hci-bridge/src/ubcsp.c:528-552 | a poll reports SENT if and only if it retired a packet with a frame that did not reset the link, dropped an unreliable one, or became active |
| Sessions.SentIsNotRetired | ble-hci-bridge/src/ubcsp.c:593-663 | a CONF RESP reports SENT with the packet still pending, and a resetting SYNC retires one without reporting it |
| Sessions.AckAndResetMean | ble-hci-bridge/src/ubcsp.c:581-707 | a poll reports ACK if and only if it hands over a reliable packet, which then must be acknowledged, and RESET if and only if a frame reset the link |
| Sessions.PollDelay | ble-hci-bridge/src/ubcsp.c:1159-1176 | the delay a poll returns, for every state and input: 0 if a frame cancelled a running delay, else one less; 25 after a finished frame or when there was none to start; 0 in the middle of a frame |
| Sessions.DelayIsCancelled | ble-hci-bridge/src/ubcsp.c:1108-1112 | between frames, a poll that must acknowledge a packet or receives a frame that cancels the delay returns 0 and the next one starts a frame, whatever delay was running |
| Sessions.PollReads | ble-hci-bridge/src/ubcsp.c:1053-1084 | a poll reads everything while it has a packet to receive into, except that one which starts a frame the link still had to establish itself with reads and reports nothing |
| Sessions.InitializedStartsSync | ble-hci-bridge/src/ubcsp.c:147-163 | the first poll after an initialization starts a SYNC, whatever went before |
| Sessions.SubmissionWaits | ble-hci-bridge/src/ubcsp.c:175-186 | a packet submitted while a delay is running goes out when it has run out, and not before |
| Sessions.ArmingDoesNotDisturb | ble-hci-bridge/src/ubcsp.c:198-207 | arming the receiver changes nothing of what goes out, over any number of polls |
| Sessions.SessionIsRun | ble-hci-bridge/src/ubcsp.c:147-207 | every interleaving of polls, submissions, receptions and initializations is a run of the frame level |
| Sessions.SessionCounts | ble-hci-bridge/src/ubcsp.c:1159-1176 | over every session both numbers count modulo 8 and the delay stays within 0 and 25 |
| Sessions.SessionEstablishes | ble-hci-bridge/src/ubcsp.c:953-1077 | over every session without a reset while a CONF RESP is pending, an engine that is not active starts link establishment frames only |
| Sessions.SessionOwesAck | ble-hci-bridge/src/ubcsp.c:1013-1040 | over every session an acknowledgement owed is still owed or was sent with the number of its moment |
| Sessions.SessionResendsAck | ble-hci-bridge/src/ubcsp.c:982-1040 | over every session in which the frame with the acknowledgement is cut short by a packet sent: what the next data or ack frame is, and that it carries the number of that moment |
| OctetSystem.PollIsPoll | ble-hci-bridge/src/ubcsp.c:826-1177 | a poll of the octet system does to the engine and hands to its host what Poll says |
| OctetSystem.DamagedPayloadIsRefused | ble-hci-bridge/src/ubcsp.c:462-501 | a frame whose payload was damaged in a burst or in an odd number of bits is one that every receiver refuses |
| OctetSystem.FragmentIsRefused | ble-hci-bridge/src/ubcsp.c:435-456 | every receiver refuses what was sent of a frame that was cut short, wherever it was cut |
| OctetSystem.SpoiledVerdict | ble-hci-bridge/src/ubcsp.c:383-501 | a receiver refuses a spoiled frame, with room for all of it or whenever the code is not the checksum it displaced |
| OctetSystem.RunIsMoves | ble-hci-bridge/src/ubcsp.c:826-1177 | every run of two engines joined octet by octet, whatever is lost, damaged, cut short, spoiled and split, is a run of TwoEngines |
| OctetSystem.OctetsDeliverOnce | ble-hci-bridge/src/ubcsp.c:677-707 | so what the hosts get octet by octet is, of every number in order, exactly one of the packets handed over under it |
| OctetSystem.OctetsDeliverExactlyOnce | ble-hci-bridge/src/ubcsp.c:677-707 | and with hosts that hand over only when nothing is pending, exactly what was handed over, once and in order |
| OctetSystem.OctetsContractDelivers | ble-hci-bridge/src/ubcsp.c:170-171 | the same for hosts that go by the reports of their polls: every packet is handed over after a report that one was sent |
| OctetSystem.OctetsNeverReset | ble-hci-bridge/src/ubcsp.c:581-600 | in every run no poll reports that the peer has restarted |
| Host.QueueIsFifo | ble-hci-bridge/src/uart_bcsp_hci.c:50-83 | over every run of puts and takes, what was taken and what is left is what was put, in order |
| Host.SlotsRunOut | ble-hci-bridge/src/uart_bcsp_hci.c:60-79 | a queue that never holds more than two operations runs out of its 64 slots if it is never empty |
| Host.EmptyIsUnused | ble-hci-bridge/src/uart_bcsp_hci.c:68-83 | over every run, an empty queue has all its slots |
| Host.UsesSinceEmpty | ble-hci-bridge/src/uart_bcsp_hci.c:56-66 | over every run without an empty queue, one slot is used up by every put, taken or not |
| Host.HciQueue.Enqueue | ble-hci-bridge/src/uart_bcsp_hci.c:56-66 | possible with fewer than 64 uses since the queue was last empty; appends to the FIFO in the three arrays |
| Host.HciQueue.Dequeue | ble-hci-bridge/src/uart_bcsp_hci.c:68-83 | takes the oldest operation if there is one, copies it into the send buffer and submits it to the engine as a reliable packet; all slots are free again when it was the last |
| Host.HciQueue.IsEmpty | ble-hci-bridge/src/uart_bcsp_hci.c:98-104 | agrees with the FIFO |
| Host.HciQueue.Size | ble-hci-bridge/src/uart_bcsp_hci.c:106-112 | agrees with the FIFO |
| Host.WindowInvariant | ble-hci-bridge/src/uart_bcsp_hci.c:258-338 | over every run a closed window awaits a response, so that PACKET_SENT alone never opens it, and an open window counts no time |
| Host.OneCommandWindow | ble-hci-bridge/src/uart_bcsp_hci.c:281-322 | between two operations sent there is a packet received or a timeout |
| Host.TimeoutIsDeserved | ble-hci-bridge/src/uart_bcsp_hci.c:324-337 | a timeout comes with 10000 delayed polls after the first of which nothing was sent, received or taken from the queue |
| Host.TimeoutComes | ble-hci-bridge/src/uart_bcsp_hci.c:324-337 | after a round in which something happened and which left the window closed, as long as nothing is sent, received or taken, a round times out if and only if its poll is the 10000th to be delayed; polls without delay in between do not matter |
| Host.TimeoutOpens | ble-hci-bridge/src/uart_bcsp_hci.c:324-337 | and a timeout opens the window |
| Host.ResponseExpected | ble-hci-bridge/src/uart_bcsp_hci.c:281-337 | over every run, a response is expected if and only if an operation was sent or a wait timed out since the last packet received |
| Host.UpsAreDelivered | ble-hci-bridge/src/uart_bcsp_hci.c:286-307 | over every run of rounds: what goes up as events is, in order, what the engine delivered on channel 5 except hardware errors (first octet 0x10), what goes up as data is what it delivered on channel 6, and otherwise only one report for every timeout |
| Host.NextOperation | ble-hci-bridge/src/uart_bcsp_hci.c:281-322 | the next operation is sent in a round if and only if one is waiting and, since the last one, a packet was received or the wait timed out, reported sent or not |
| Host.WindowIgnoresSent | ble-hci-bridge/src/uart_bcsp_hci.c:310-322 | over every run, a round submits a packet although the last one was not reported sent if and only if one is outstanding, another is waiting, and the window was opened in between |
| Host.ReplacesNow | ble-hci-bridge/src/uart_bcsp_hci.c:310-322 | the same in terms of the window before the round: it was open, or this round receives a packet |
| Host.UnaskedEventReplaces | ble-hci-bridge/src/uart_bcsp_hci.c:287-322 | the octets of one reliable frame that acknowledges nothing are enough: the poll reports received and not sent, and the round replaces the operation that is still pending |
| Host.HciLoop.PollAndForward | ble-hci-bridge/src/uart_bcsp_hci.c:274-319 | polls the engine, notes the activity, hands up what was received and arms the engine with all 512 octets again |
| Host.HciLoop.Iterate | ble-hci-bridge/src/uart_bcsp_hci.c:274-337 | one round of the loop, engine and all: window, queue, what goes up to the bridge, and the engine after the poll, armed again, with the next operation submitted |
| Host.RoundIsSession | ble-hci-bridge/src/uart_bcsp_hci.c:274-322 | what a round does to the engine is a session: a poll, then the host's calls |
| Host.OperationsMaySubmit | ble-hci-bridge/src/uart_bcsp_hci.c:68-80 | an operation of 1 to 512 octets is submitted as a reliable packet with its channel and the first octets of its data |
| Host.RoomWhenArmed | ble-hci-bridge/src/uart_bcsp_hci.c:313-315 | armed again, the engine has room for frames with up to 510 octets of payload and for no longer ones |

## Left out

- Device opening, terminal settings, shell commands, sleeping, printing and the reading and writing of the UART device: the UART is two octet sequences, one read and one written.
- The sockets, threads and internal commands of the bridge, and its OpenSSL wrappers: plumbing around code that is not part of this model.
- The mutex around the queue: each function holds it for its whole body, so each is one atomic step.
- The build without CRC, debug output, the unused field use_crc, and the unused function getOpFromSendPacket.
- The other packages of the repository: configuration, and programs of a few lines.
- Delivery across a restart of a peer and for unreliable packets: the code does not provide it.
- OctetSystem.RunIsMoves: damage and fragments are those that every receiver refuses, because no 16-bit CRC can refuse all damage; what an abandoned frame leaves may arrive or not, and an escape sequence cut in two does not swallow the FRAME after it. A receiver has room for a spoiled frame whose escape code is the checksum it displaced: cut off at the end of a buffer, such a frame is not shown to be refused. The octets of a frame become readable when it is complete.
- TwoEngines.ExactlyOnceDelivery: a damaged frame counts as lost or refused, because no 16-bit CRC can refuse every damage; Framing.DamageIsDetected says which damage is always refused.
- Progress.NeverStuck: says that progress stays possible, with a schedule; that it happens depends on the line and the polling.
- Engine.MicroBcsp.SubmitPacket: takes the packet as a value, so a host that writes into its payload while it is pending is not modelled; the host loop writes there only right before it submits.
- Engine.MicroBcsp.SetupPacket: a pointer to the host's payload or to a constant is a pointer to a sequence; pointers to the engine's own buffers point to arrays that change in place.
- Host.HciQueue.Dequeue: the data of an operation is a sequence, so freeing it is not modelled; that it is as long as the length says, and at most 512 octets, is asked of whoever queues it.
