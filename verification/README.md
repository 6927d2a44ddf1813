# Verification of the OBC flight software's evidence and link logic

This project models the parts of the on-board computer (OBC) thesis repository where a mistake would be hardest to see,
and proves what each of them promises. One module follows each component:

- **Captures on the wire.** `Octets`, `Crc`, `CrcPeriod`, `GreedyScan`, `SpacePackets`, `FrameDecoder` and `CaptureReport`
  model the offline capture decoder: the frame error control field and the errors it detects, the resynchronising frame
  scanners, the Space Packet walk and the accounting of every octet. `Handshake`, `HandshakeReader` and `HandshakeWait`
  model the second, independently written reader that polls growing captures for authentication messages. `TmEncoder`,
  `TcEncoder` and `PacketLog` write telemetry, telecommands and the packet log, from CCSDS 133.0-B-2, 132.0-B and 232.0-B
  where they apply, for the round trips.
- **Operator sessions.** `SessionStore` is the store of secure sessions per band, `SessionRuns` every sequence of
  operations on it, and `SessionHistory` the store read off that sequence alone.
- **Command authority.** `AuthorityCatalog` is the policy collapse, the generated binary search and the decision.
- **COMM and ADCS.** `CommSim` and `CommRuns` (uplink queue, switches and counters), `DownlinkSender` (chunked sending judged
  by wrapping counters), `AdcsTransport` (sequence-matched requests), `AdcsSim`, `AdcsPointing` and `AdcsModel` (attitude
  dynamics, what they achieve, and whole runs).
- **Evidence.** `ContentDigest` is the workspace digest; `Json` and `PosixPath` are the documents and paths as Python sees
  them; `Provenance` says what each failure of the target revision check means, `ProvenanceChecker` is the check,
  `ProvenanceChain` and `Route1Tables` what acceptance binds together, `ProvenanceComplete` that acceptance is not empty,
  `ProvenanceFacts` and `ProvenanceAltered` exactly what is accepted and what one altered field does; `Campaign`,
  `CampaignResume` and `CampaignFacts` are the campaign manifest and the resume decision; `ArtifactOrder`, `Artifacts`,
  `ArtifactImport` and `ArtifactFacts` the attempt artifacts. `Wrappers` holds the option and result types they share.

Conventions. Octets are integers from 0 to 255 and the 16-bit CRC register is its sixteen bits, most significant first;
counters and sequence numbers wrap explicitly. Loops of the source are methods with invariants, each proved equal to a
specification function or to a property, and whole runs are folds of one step. Attitude arithmetic is over the reals, with
`sqrt`, `exp`, `sin`, `cos` and `acos` given by the laws in `AdcsSim.Lawful` and `AdcsPointing.ArcLawful`. SHA-256 is an
arbitrary function; where a result needs it, the absence of collisions among the inputs at hand is a stated hypothesis.
Clocks, file contents, process lists and radio answers are parameters.

Where the code does less than one might expect, the project says exactly when it does what is wanted and gives an input
where it does not:

- The decoder counts fill after the last telemetry frame both as fill and as trailing octets, so its downlink totals add
  up exactly when there is none (`CaptureReport.DownlinkAccounting`, `CaptureReport.FillCountedTwice`).
- A command lost after transmission leaves the stored number unchanged, so numbers run 1, 2, 3, ... exactly when every
  send but the last completes (`SessionRuns.NumbersExact`, `SessionRuns.LostSendReuses`).
- Two flipped bits pass the frame check exactly when they are a multiple of 32767 bits apart: never in frames of up to 4095
  octets, but at 4096, the capture frame size `scripts/manual_ops/manual_secure_ops.py:366` falls back to, the first and the
  last bit of any accepted frame can be flipped together unseen (`CrcPeriod.TwoBitErrors`, `FrameDecoder.FlippedEndsAccepted`).
- A completed switch command leaves no live session exactly when none is live on another band the manifest leaves out
  (`SessionRuns.SwitchExact`, `SessionRuns.SwitchMissesUnlisted`).
- A corrupted telecommand frame is refused while its length field is intact; with the length field hit it can be
  accepted (`FrameDecoder.CorruptedTcRefused`, `TcEncoder.LengthErrorAccepted`).
- Pointing always turns towards the desired quaternion, so from the far side of the double cover it goes the long way
  round and the angle does not shrink (`AdcsPointing.ErrorShrinksIff`, `AdcsPointing.LongWayRound`).
- Authenticating keeps one live session per service exactly when no session of that service is live on a band the manifest
  leaves out (`SessionRuns.EstablishExact`, `SessionRuns.UnlistedBothLive`).
- The sender's verdict is exact while no counter moves by 2^32; a drop of exactly 2^32 octets goes unseen
  (`DownlinkSender.VerdictExact`, `DownlinkSender.DropsCanWrap`).
- The importer orders retained files component by component while the validator demands the order of the written strings,
  so the importer's own manifest is refused exactly when two retained files clash, as `foo/x` and `foo-2/y` do
  (`ArtifactImport.UnchangedAcceptedIff`, `ArtifactImport.FooRefused`).

Check the whole project with `dafny verify dfyconfig.toml`.

## Model

| member | source | states |
|---|---|---|
| `Crc.ComputeCrc` | scripts/decode_ccsds_capture.py:29-38 | the register loop computes the CRC of the octets fed in order from 0xFFFF |
| `Crc.CrcIsRemainder` | scripts/decode_ccsds_capture.py:29-38 | that CRC is the remainder of the message, its first sixteen bits inverted and sixteen zeros appended, on long division by x^16+x^12+x^5+1 |
| `Crc.UpdateIsFeed` | scripts/secure_link_auth_lib.py:298-307 | the octet-wise loop (exclusive-or, then eight shifts) is the bit-serial register fed one message bit at a time; both copies of the function run this loop |
| `Crc.TrailerResidue` | scripts/decode_ccsds_capture.py:120-124 | a trailer matches exactly when the CRC over the whole frame, trailer included, is zero |
| `Crc.TwoOctetsBijective` | scripts/decode_ccsds_capture.py:29-38 | from any register exactly one 16-bit word leads to any given register, and for that word no other register does |
| `Crc.RegisterReached` | scripts/decode_ccsds_capture.py:29-38 | for any 16-bit word every register is reached from exactly one register: the two-octet step is a bijection on registers too |
| `Crc.BurstDetected` | scripts/decode_ccsds_capture.py:29-38 | equal-length messages that differ only inside sixteen consecutive bits never share a CRC |
| `Crc.CorruptedFrameRefused` | scripts/decode_ccsds_capture.py:120-124 | a frame with a matching trailer, changed only inside such a window (trailer included), no longer matches |
| `Crc.OddErrorsRefused` | scripts/decode_ccsds_capture.py:120-124 | nor does one changed in an odd number of bits |
| `CrcPeriod.OrderExact` | scripts/decode_ccsds_capture.py:29-38 | the register shifted k times from 1 is back at 1 exactly when k is a multiple of 32767: the order of x modulo the generator, by products of powers and the factors 7, 31 and 151 |
| `CrcPeriod.TwoBitErrors` | scripts/decode_ccsds_capture.py:120-124 | a matching frame of any length with exactly two bits flipped still matches exactly when the two bits are a multiple of 32767 apart |
| `CrcPeriod.TwoBitsRefused` | scripts/decode_ccsds_capture.py:120-124 | so up to 4095 octets no two flipped bits go unseen |
| `CrcPeriod.FlippedEndsMatch` | scripts/decode_ccsds_capture.py:120-124 | and every matching frame of 4096 octets still matches with its first and last bit flipped |
| `GreedyScan.ScanIsGreedy` | scripts/decode_ccsds_capture.py:69-141 | the slide-by-one, jump-by-frame scan reports an offset exactly when it is acceptable and no earlier reported frame covers it, in increasing order |
| `GreedyScan.GreedyIsScan` | scripts/decode_ccsds_capture.py:69-141 | that leftmost-greedy choice is unique: any choice with the property is the one the scan reports |
| `GreedyScan.ScanDisjoint` | scripts/decode_ccsds_capture.py:69-141 | reported frames do not overlap |
| `SpacePackets.ParseSpacePackets` | scripts/decode_ccsds_capture.py:41-66 | the packet walk lists the packets of the data field, stopping at an incomplete one and, on request, after an idle one |
| `SpacePackets.CaptureSpacePackets` | scripts/secure_link_auth_lib.py:310-336 | the second walker captures the payloads of the complete packets that are not idle, stopping at an idle one on request |
| `SpacePackets.WalkersAgree` | scripts/secure_link_auth_lib.py:310-336 | on every data field the second walker captures exactly the non-idle packets the first one lists, with their payloads and offsets |
| `FrameDecoder.ParseTcFrames` | scripts/decode_ccsds_capture.py:69-108 | the telecommand loop computes the scan for SCID, VCID, length and trailer, each frame decoded at its offset and with a CRC of zero over its octets |
| `FrameDecoder.ParseTmFrames` | scripts/decode_ccsds_capture.py:111-141 | the telemetry loop computes the scan for frames of the configured size |
| `FrameDecoder.TcDecomposition` | scripts/decode_ccsds_capture.py:69-108 | the telecommand frames are the one leftmost-greedy decomposition of the capture, each acceptable and with all three field checks true |
| `FrameDecoder.TmDecomposition` | scripts/decode_ccsds_capture.py:111-141 | the same for telemetry frames |
| `FrameDecoder.CorruptedTmRefused` | scripts/decode_ccsds_capture.py:111-141 | a telemetry frame corrupted inside sixteen consecutive bits or in an odd number of bits is never accepted at its offset |
| `FrameDecoder.TwoBitsTmRefused` | scripts/decode_ccsds_capture.py:111-141 | nor is one of at most 4095 octets with two bits flipped |
| `FrameDecoder.FlippedEndsAccepted` | scripts/decode_ccsds_capture.py:111-141 | at 4096 octets, the default of manual_secure_ops.py, an accepted frame with its first and last bit flipped is accepted again |
| `FrameDecoder.TcResidue` | scripts/decode_ccsds_capture.py:86-91 | the CRC over every reported telecommand frame, trailer included, is zero |
| `FrameDecoder.TmResidue` | scripts/decode_ccsds_capture.py:119-124 | and over every reported telemetry frame |
| `FrameDecoder.CorruptedTcRefused` | scripts/decode_ccsds_capture.py:84-92 | a telecommand frame whose length field arrives intact, corrupted inside sixteen consecutive bits, in an odd number of bits or in two bits, is never accepted at its offset |
| `TcEncoder.LengthErrorAccepted` | scripts/decode_ccsds_capture.py:74-91 | with the length field hit the frame is unprotected: every accepted frame of at most 1022 octets has a corruption inside those sixteen bits after which it is accepted at its offset, given the right two octets after it |
| `TcEncoder.TcRoundTrip` | scripts/decode_ccsds_capture.py:69-108 | frames encoded as sections 4.1.2 and 4.1.4 of CCSDS 232.0-B prescribe and sent back to back are read back one by one with their lengths, SCID, VCID, frame counts and packets, idle ones included |
| `CaptureReport.RepeatedPatternTest` | scripts/decode_ccsds_capture.py:194-195 | data is a run of whole patterns exactly when its length divides and it equals so many copies |
| `CaptureReport.NonFrameSegments` | scripts/decode_ccsds_capture.py:144-170 | the walk over the frames sorted by offset collects the gaps between them and the rest after the last |
| `CaptureReport.Tiling` | scripts/decode_ccsds_capture.py:198-222 | every octet lies in exactly one frame or one segment |
| `CaptureReport.TilingTotal` | scripts/decode_ccsds_capture.py:144-170 | frame octets and segment octets add up to the capture |
| `CaptureReport.UplinkAccounting` | scripts/decode_ccsds_capture.py:251-259 | uplink frames and segments tile the capture, and frame, fill and unexpected octets add up to its length |
| `CaptureReport.DownlinkAccounting` | scripts/decode_ccsds_capture.py:260-272 | downlink frames and segments tile the capture; the reported totals exceed its length by exactly the fill after the last frame, so they add up if and only if there is none |
| `CaptureReport.FillCountedTwice` | scripts/decode_ccsds_capture.py:260-272 | a downlink capture of one run of fill has its octets counted twice |
| `CaptureReport.PacketSummary` | scripts/decode_ccsds_capture.py:173-191 | the summary holds the number of frames with each one's offset, the number of non-idle packets, and per APID how many of those there are and their sequence counts in order |
| `CaptureReport.FieldErrorsUnreachable` | scripts/decode_ccsds_capture.py:285-288 | the SCID/VCID/FECF errors can never be reported |
| `CaptureReport.PassMeans` | scripts/decode_ccsds_capture.py:284-316 | a run without errors means every uplink octet is in an accepted frame or in fill, every downlink octet is too but for less than one trailing frame, and all required APIDs occur |
| `CaptureReport.ReportedSegments` | scripts/decode_ccsds_capture.py:144-170 | every segment lies in its capture and is marked as fill exactly when it is whole copies of the pattern; the trailing octets are those after the last telemetry frame |
| `CaptureReport.ErrorsExact` | scripts/decode_ccsds_capture.py:284-316 | each error is reported exactly when its cause is in the captures |
| `CaptureReport.PassExactly` | scripts/decode_ccsds_capture.py:284-316 | the pair passes exactly when both captures hold frames, all else on the uplink and before the last downlink frame is fill, at most an allowed partial frame trails, and the required APIDs occur |
| `Handshake.ParseEncode` | scripts/secure_link_auth_lib.py:366-394 | every well-formed message is read back from its octets |
| `Handshake.EncodeParse` | scripts/secure_link_auth_lib.py:366-394 | a payload is read as a message only if it is that message's octets |
| `Handshake.BuildersInverted` | scripts/secure_link_auth_lib.py:221-246 | the reader inverts both packet builders, and a response of the wrong size is refused |
| `Handshake.BuildersCanonical` | scripts/secure_link_auth_lib.py:366-394 | a payload read as a request or response is the one its builder makes |
| `Handshake.RaisedExactly` | scripts/secure_link_auth_lib.py:366-394 | reading raises on exactly the payloads that start as a message does but for an unknown type |
| `HandshakeReader.ParseTmPackets` | scripts/secure_link_auth_lib.py:339-363 | the reader's frame loop computes its scan, offsets shifted by the frame offset plus six |
| `HandshakeReader.ParsersAgree` | scripts/secure_link_auth_lib.py:339-363 | on every capture its packets are the non-idle packets of the decoder's frames, in order, with shifted offsets |
| `HandshakeReader.TmPacketsGrow` | scripts/secure_link_auth_lib.py:339-363 | appending to a capture keeps every packet already read, in place |
| `HandshakeReader.LoadHandshakeMessages` | scripts/secure_link_auth_lib.py:397-428 | the loader collects the wanted handshake messages of a capture, and raises on a message type outside 1..4 |
| `HandshakeReader.LoadHandshakeMessagesFromLog` | scripts/secure_link_auth_lib.py:431-465 | the same for the length-prefixed packet log |
| `HandshakeReader.LoadGrows` | scripts/secure_link_auth_lib.py:397-465 | where both readings succeed, the messages of a file are a prefix of those of any extension of it, for capture and log |
| `HandshakeReader.CollectExact` | scripts/secure_link_auth_lib.py:409-428 | loading raises exactly when a handshake packet does; otherwise a message is loaded exactly when a handshake packet bears it and it is wanted, with that packet's offset |
| `HandshakeWait.WaitForHandshake` | scripts/manual_ops/manual_secure_ops.py:388-414 | a wait returns the last message of the first source, log before capture, with more messages than seen, raises with the loaders, or times out |
| `HandshakeWait.WaitExact` | scripts/manual_ops/manual_secure_ops.py:388-414 | the first poll that shows something new decides: it raises, or hands out the last message of the log, or of the capture when the log has nothing new; without one the wait times out |
| `HandshakeWait.IndicesIncrease` | scripts/manual_ops/manual_secure_ops.py:384-414 | over every run of waits and progress refreshes on growing files the indices handed out per source strictly increase |
| `HandshakeWait.HitsStay` | scripts/manual_ops/manual_secure_ops.py:388-414 | a message handed out is found at the same index by every later successful reading |
| `TmEncoder.RoundTrip` | scripts/secure_link_auth_lib.py:310-363 | packets grouped into frames in any way that fits, encoded as section 4.1.3 of CCSDS 133.0-B-2 and sections 4.1.2 and 4.1.6 of CCSDS 132.0-B prescribe with idle fill, are recovered exactly |
| `TmEncoder.PackedRoundTrip` | scripts/secure_link_auth_lib.py:339-363 | any list of packets that each fit a frame can be grouped so, and is then recovered exactly |
| `TmEncoder.ReportRoundTrip` | scripts/decode_ccsds_capture.py:111-141 | the decoder reports the same frames one by one with both frame counts, the data field status, all packets and the idle packet that fills each |
| `TmEncoder.MessagesRoundTrip` | scripts/secure_link_auth_lib.py:397-428 | handshake messages sent this way, however grouped, come out of the loader, exactly those asked for, in order and with the offsets of their packets |
| `PacketLog.LogRoundTrip` | scripts/secure_link_auth_lib.py:431-465 | payloads written to the packet log are read back record by record, also while the next record is only partly written |
| `PacketLog.LoggedMessages` | scripts/secure_link_auth_lib.py:431-465 | messages logged come out of the loader, exactly those asked for, in order and with the offsets of their records |
| `SessionStore.Store.InvalidateSiblingServiceStates` | scripts/manual_ops/manual_secure_ops.py:266-285 | retires the readable sessions of the same service on the other listed bands and touches nothing else |
| `SessionStore.Store.Establish` | scripts/manual_ops/manual_secure_ops.py:600-615 | stores a fresh session with sequence 1 after retiring its siblings |
| `SessionStore.Store.RequireActiveState` | scripts/manual_ops/manual_secure_ops.py:636-643 | hands out a session exactly when it is not retired, its owner and band are the present ones and at most 180 s have passed, and stores the invalidation otherwise |
| `SessionStore.Store.InvalidateBandSwitchStates` | scripts/manual_ops/manual_secure_ops.py:243-263 | retires the current session and every readable session on a listed band |
| `SessionStore.Store.SendCommand` | scripts/manual_ops/manual_secure_ops.py:646-675 | uses the stored number, then stores the next one; a switch command retires all sessions; nothing is stored when sending fails |
| `SessionStore.Store.Status` | scripts/manual_ops/manual_secure_ops.py:816-835 | the report foretells what sending would meet at that time: no session, a bad file, the reason of an invalidation, or the number that would be used; it shows the stored session otherwise unaltered and changes nothing |
| `SessionHistory.StoreIsHistory` | scripts/manual_ops/manual_secure_ops.py:205-285 | after every run from an empty store each state file is exactly what the sequence of invocations tells: key, owner, path, completed commands plus one, time of last use and last reason for retirement |
| `SessionHistory.CommandExact` | scripts/manual_ops/manual_secure_ops.py:636-675 | a command leaves exactly when its band is authenticated and not cleared since, nothing retired the session, the owner is the one that authenticated and at most 180 s have passed since the authentication or the last completed command; else it is refused for the timeout first, then the owner, then the last retirement |
| `SessionHistory.ActiveExact` | scripts/manual_ops/manual_secure_ops.py:205-216 | on any store: which uses are let through, and which reason is reported when several checks fail |
| `SessionHistory.LateCommandRefused` | scripts/manual_ops/manual_secure_ops.py:213-215 | a command 100000 s after the authentication is refused for the timeout |
| `SessionRuns.RunKeepsInv` | scripts/manual_ops/manual_secure_ops.py:205-285 | in every run of authenticate, send, upload, clear and status on listed bands at most one session per service is live, each stored session belongs to its band, and sequence numbers chain from 1 |
| `SessionRuns.ReachedInv` | scripts/manual_ops/manual_secure_ops.py:205-285 | so from an empty store this holds of every reachable state |
| `SessionRuns.RunKeepsNumbers` | scripts/manual_ops/manual_secure_ops.py:646-675 | in every run, listed bands or not, the stored number of each band continues the chain of numbers it has used |
| `SessionRuns.NumbersExact` | scripts/manual_ops/manual_secure_ops.py:646-675 | the numbers of one authentication are 1, 2, 3, ... exactly when every send but the last completed |
| `SessionRuns.CompletedRunsCount` | scripts/manual_ops/manual_secure_ops.py:646-675 | when no send is lost, every authentication in every run, on any bands, uses 1, 2, 3, ... without gap or reuse |
| `SessionRuns.LostSendReuses` | scripts/manual_ops/manual_secure_ops.py:646-675 | a send that fails after transmission makes the next one reuse its number |
| `SessionRuns.StaysInvalidated` | scripts/manual_ops/manual_secure_ops.py:205-216 | an invalidated session stays so, and its band sends nothing, until it is authenticated again or cleared |
| `SessionRuns.SwitchRetiresAll` | scripts/manual_ops/manual_secure_ops.py:243-263 | on listed bands a completed switch command leaves no live session on any band |
| `SessionRuns.SwitchExact` | scripts/manual_ops/manual_secure_ops.py:243-263 | for any manifest it does so exactly when no session is live on another band the manifest leaves out |
| `SessionRuns.SwitchMissesUnlisted` | scripts/manual_ops/manual_secure_ops.py:243-263 | with no band listed, a switch on S-band leaves the session on the UHF band live |
| `SessionRuns.EstablishExact` | scripts/manual_ops/manual_secure_ops.py:266-285 | without the listing, authenticating keeps one live session per service exactly when none of that service is live on an unlisted band |
| `SessionRuns.UnlistedBothLive` | scripts/manual_ops/manual_secure_ops.py:266-285 | with no band listed, authenticating on both UHF bands leaves both sessions live |
| `AuthorityCatalog.CollapseByOpcode` | scripts/generate_command_authority_catalog.py:111-124 | the collapse fails exactly when two policies of one opcode disagree; otherwise the table is strictly sorted, drawn from the policies and rules as each of them does |
| `AuthorityCatalog.FindEntry` | scripts/generate_command_authority_catalog.py:148-163 | the generated binary search finds what a plain scan of the table finds |
| `AuthorityCatalog.EvaluateCommandAuthority` | scripts/generate_command_authority_catalog.py:169-199 | the generated decision is the one the table entry, or its absence, calls for |
| `AuthorityCatalog.CatalogAgrees` | scripts/generate_command_authority_catalog.py:111-199 | it equals the decision of a scan of the policies, and of any policy with the opcode; an entry is found exactly when a policy has the opcode |
| `AuthorityCatalog.ConflictOrderFree` | scripts/generate_command_authority_catalog.py:111-124 | permuting the policies does not change whether the collapse fails |
| `AuthorityCatalog.OrderIrrelevant` | scripts/generate_command_authority_catalog.py:111-199 | nor any decision |
| `AuthorityCatalog.DecisionExact` | scripts/generate_command_authority_catalog.py:168-199 | over the policies themselves: when a command is allowed, which reason and response go with each refusal, and whose class and resource are reported |
| `CommSim.CommSimModel.IngestUplinkBytes` | simulators/comm/CommSimModel.cpp:52-71 | accepts octets when the link is up and there is room, otherwise counts the refusal |
| `CommSim.CommSimModel.HandleUplinkPoll` | simulators/comm/CommSimModel.cpp:77-100 | pops up to the requested and the largest chunk size, oldest first |
| `CommSim.CommSimModel.BeginDownlinkWrite` | simulators/comm/CommSimModel.cpp:120-136 | refuses bad requests, counts failed ones, and lets the rest be written |
| `CommSim.CommSimModel.CompleteDownlinkWrite` | simulators/comm/CommSimModel.cpp:138-144 | counts a written chunk or a failed write and changes nothing else |
| `CommSim.RunKeepsInv` | simulators/comm/CommSimModel.cpp:52-144 | over every run without reset the accepted octets are all polled ones followed by the queue, the queue stays within capacity, and the four counters are the event counts modulo 2^32 |
| `CommSim.EveryRun` | simulators/comm/CommSimModel.cpp:8-20 | in particular from a new model |
| `CommRuns.IngestExact` | simulators/comm/CommSimModel.cpp:52-71 | in every run octets are taken exactly when they are there, the link was last switched up and not forced down, and they fit with those waiting |
| `CommRuns.WriteExact` | simulators/comm/CommSimModel.cpp:102-136 | in every run a write is let through exactly when the request is right, the link is up and no back pressure or error is injected; the reply says which |
| `CommRuns.PollExact` | simulators/comm/CommSimModel.cpp:77-100 | in every run a poll hands out the oldest octets waiting, as many as asked for, at most 192 |
| `CommRuns.DropsCounted` | simulators/comm/CommSimModel.cpp:60-66 | the drop counters count exactly the calls that overflow the queue, and their octets, modulo 2^32 |
| `DownlinkSender.SendFile` | simulators/comm/CommDownlinkV3SenderMain.cpp:228-272 | the chunk and retry loops leave the one log the answers justify |
| `DownlinkSender.SendAllJustified` | simulators/comm/CommDownlinkV3SenderMain.cpp:228-272 | read off the answers alone: the acknowledged chunks are the first pieces of the file, each after RETRY answers and one OK within five calls; the exit is 0 when no piece is left, 6 exactly when five calls for the next one answered RETRY, 7 exactly when one answered ERROR after fewer |
| `DownlinkSender.JustifiedOnce` | simulators/comm/CommDownlinkV3SenderMain.cpp:228-272 | only one log is justified by given answers |
| `DownlinkSender.PiecesAreFile` | simulators/comm/CommDownlinkV3SenderMain.cpp:228-229 | the pieces are the file, all full but the last |
| `DownlinkSender.AckedIsPrefix` | simulators/comm/CommDownlinkV3SenderMain.cpp:228-272 | acknowledged chunks concatenate to a prefix of the file, the whole file exactly when the exit is 0, each within five attempts |
| `DownlinkSender.VerdictSound` | simulators/comm/CommDownlinkV3SenderMain.cpp:297-320 | a good verdict means backlog plus file were really accepted and flushed, despite 32-bit wrap-around |
| `DownlinkSender.VerdictExact` | simulators/comm/CommDownlinkV3SenderMain.cpp:297-320 | while no counter moves by 2^32 the verdict is good exactly when the file was accepted, backlog and file were flushed and nothing was dropped |
| `DownlinkSender.VerdictCodes` | simulators/comm/CommDownlinkV3SenderMain.cpp:297-320 | and then code 8, 10 or 11 says which of the three failed first |
| `DownlinkSender.DropsCanWrap` | simulators/comm/CommDownlinkV3SenderMain.cpp:297-320 | dropping exactly 2^32 octets goes unseen |
| `DownlinkSender.Run` | simulators/comm/CommDownlinkV3SenderMain.cpp:218-320 | the exit code is that of the sends or of the verdict on the first and the last reading and never 9; after the sends it waits until backlog and file are flushed or the polls run out, and the last reading is the one after that wait; exit 0 means all chunks acknowledged in order within five attempts and backlog plus file flushed |
| `AdcsTransport.CspAdcsTransport.NextSequence` | simulators/adcs/AdcsTransport.cpp:98-105 | draws the next 16-bit number, never 0 |
| `AdcsTransport.CspAdcsTransport.Call` | simulators/adcs/AdcsTransport.cpp:82-162 | the out-state changes only on OK, to the state of a matching reply; every other outcome maps to its status |
| `AdcsTransport.OutcomeExact` | simulators/adcs/AdcsTransport.cpp:107-162 | each status has its one cause, and the state is taken on OK only |
| `AdcsTransport.SequencesRepeat` | simulators/adcs/AdcsTransport.cpp:98-105 | two requests share a number exactly when they are a multiple of 65535 apart |
| `AdcsTransport.LateReply` | simulators/adcs/AdcsTransport.cpp:132-162 | a late reply to another request is taken exactly when it names the same service and the requests are a multiple of 65535 apart; inside that window it is refused and writes nothing |
| `AdcsSim.NormalizeUnit` | simulators/adcs/AdcsSimModel.cpp:403-417 | normalising gives a unit quaternion, for zero as well |
| `AdcsSim.EulerNeedsNoNormalizing` | simulators/adcs/AdcsSimModel.cpp:334-353 | the product of half-angle rotations is already of norm 1, so the normalisation that follows changes nothing |
| `AdcsSim.StepKeepsUnit` | simulators/adcs/AdcsSimModel.cpp:200-222 | every step in every mode keeps attitude and target at norm 1 |
| `AdcsSim.PointingErrorUnclamped` | simulators/adcs/AdcsSimModel.cpp:419-430 | at norm 1 the clamp in the pointing error changes nothing (Cauchy-Schwarz by the four-square identity) |
| `AdcsSim.PointingRates` | simulators/adcs/AdcsSimModel.cpp:285-316 | a pointing step leaves every rate within 0.03 and the rate norm within 0.049 |
| `AdcsSim.AxisUnit` | simulators/adcs/AdcsSimModel.cpp:355-401 | for unit quaternions the rotation axis is a unit vector whenever the half-angle sine is above the threshold |
| `AdcsSim.DetumbleRates` | simulators/adcs/AdcsSimModel.cpp:259-283 | a detumble step leaves each rate within the larger of its old magnitude and its forcing bound |
| `AdcsSim.StepKeepsRates` | simulators/adcs/AdcsSimModel.cpp:200-316 | every step in every mode keeps the rates inside one envelope |
| `AdcsPointing.Approaches` | simulators/adcs/AdcsSimModel.cpp:300-305 | away from the antipode a pointing step leaves a positive multiple of e^(-dt/2.5) times the attitude plus (1 - e^(-dt/2.5)) times the desired one |
| `AdcsPointing.PointingTurnsTowards` | simulators/adcs/AdcsSimModel.cpp:285-316 | each pointing step turns the attitude strictly towards the desired one, unless they agree or are antipodal |
| `AdcsPointing.ErrorShrinksIff` | simulators/adcs/AdcsSimModel.cpp:300-305 | the angle to the desired attitude, sign apart, shrinks exactly when 2 e^(-dt/2.5) cos > e^(-dt/2.5) - 1 |
| `AdcsPointing.LongWayRound` | simulators/adcs/AdcsSimModel.cpp:300-305 | an attitude behind the desired one from which a short step does not shrink it |
| `AdcsPointing.DetumbleContracts` | simulators/adcs/AdcsSimModel.cpp:259-283 | each detumble step keeps the fraction e^(-dt/10) of every rate's distance to its forcing, a sine of one cycle in 60 s with a jitter of at most 0.0015 |
| `AdcsPointing.TurnLeads` | simulators/adcs/AdcsSimModel.cpp:373-376 | the rotation the rates are computed from leads from the previous attitude to the next |
| `AdcsPointing.RatesFollow` | simulators/adcs/AdcsSimModel.cpp:377-401 | the rates follow the angle turned over the time, axis by axis, and equal it within the limits |
| `AdcsPointing.ErrorIsAngle` | simulators/adcs/AdcsSimModel.cpp:419-430 | the pointing error lies in [0, 180] and its half has the magnitude of the dot product as its cosine |
| `AdcsPointing.EulerIsRotations` | simulators/adcs/AdcsSimModel.cpp:334-353 | the half-angle product is yaw, then pitch, then roll |
| `AdcsPointing.PassRepeats` | simulators/adcs/AdcsSimModel.cpp:325-332 | the desired attitude repeats every 60 s |
| `AdcsPointing.FirstPass` | simulators/adcs/AdcsSimModel.cpp:325-332 | a fraction x through the pass it is yaw -35 + 70x, pitch 18 + 32 sin(pi x) and roll 2 sin(2 pi x) degrees |
| `AdcsPointing.IdleRests` | simulators/adcs/AdcsSimModel.cpp:246-257 | idle, the rates stay within 0.002 of (0.12, -0.08, 0.06) and the attitude within 0.0008 of the identity before normalising |
| `AdcsModel.AdcsSimModel.StepDynamicsAt` | simulators/adcs/AdcsSimModel.cpp:200-222 | a time before the last update changes nothing, the same time refreshes, a later one steps the mode's dynamics |
| `AdcsModel.AdcsSimModel.AdvanceForTest` | simulators/adcs/AdcsSimModel.cpp:144-151 | freezes the clock at the last update when it ran freely, moves it on and steps the dynamics there |
| `AdcsModel.AdcsSimModel.ProcessCspRequest` | simulators/adcs/AdcsSimModel.cpp:66-128 | each request steps, is checked and applied as its service demands, and the reply carries its service, sequence number, result and the state after it |
| `AdcsModel.AdcsSimModel.UpdateDetumbleDynamics` | simulators/adcs/AdcsSimModel.cpp:259-283 | the in-place update of rates, attitude and elapsed time is the detumble step |
| `AdcsModel.AdcsSimModel.UpdatePointingDynamics` | simulators/adcs/AdcsSimModel.cpp:285-316 | the in-place update is the pointing step, the target following unless set from outside; it turns the attitude strictly towards the desired one unless they agree or are antipodal |
| `AdcsModel.RunKeepsUnit` | simulators/adcs/AdcsSimModel.cpp:66-316 | every run of requests and clock advances keeps both quaternions at norm 1 |
| `AdcsModel.RunKeepsRates` | simulators/adcs/AdcsSimModel.cpp:66-316 | every run without seeded rates keeps the rate envelope |
| `AdcsModel.FromDefaults` | simulators/adcs/AdcsSimModel.cpp:161-187 | both hold of every such run from the default state |
| `AdcsModel.RefusedExactly` | simulators/adcs/AdcsSimModel.cpp:71-127 | exactly the requests of the right version, service and range are answered OK; any other only lets the time pass |
| `AdcsModel.TargetStands` | simulators/adcs/AdcsSimModel.cpp:91-100 | a target set from outside stands, normalised, through every run until the next one or a reset |
| `AdcsModel.PassStartsOnOrder` | simulators/adcs/AdcsSimModel.cpp:80-89 | ordered into pointing from another mode the simulator starts a new pass, whose clock reads the time since the order while it goes on pointing |
| `ContentDigest.RemoteContentSummary` | scripts/chapter5_routes/check_route1_target_revision_provenance.py:92-129 | the target's copy of the digest computes the hash of tag and length-prefixed path, mode and content hash per file, and raises on the first path it cannot take |
| `ContentDigest.TrackedContentSummary` | scripts/chapter5_routes/check_route1_target_revision_provenance.py:548-581 | the local copy computes the same value on the same tree, or raises when a file differs from the committed index |
| `ContentDigest.PreimageInjective` | scripts/chapter5_routes/check_route1_target_revision_provenance.py:119-123 | the hashed octets determine the file list: paths, modes, content hashes and their number |
| `ContentDigest.EqualDigestsMeanEqualTrees` | scripts/chapter5_routes/check_route1_target_revision_provenance.py:548-581 | under a hash without collisions among the inputs at hand equal digests mean the same paths, kinds, modes and contents |
| `ContentDigest.ModesAreGits` | scripts/chapter5_routes/check_route1_target_revision_provenance.py:104-115 | links, programs and plain files enter the digest under git's modes |
| `PosixPath.SafeExact` | scripts/chapter5_routes/check_route1_target_revision_provenance.py:993-999 | a path is safe exactly when it is not empty, not absolute and nowhere holds .. between slashes |
| `ProvenanceChecker.EvaluateInstalledManifestFiles` | scripts/chapter5_routes/check_route1_target_revision_provenance.py:1002-1059 | reports exactly the failures of the installed-file audit whose cause holds, each once, reading records up to the first bad one |
| `ProvenanceChecker.EvaluateServiceLaunch` | scripts/chapter5_routes/check_route1_target_revision_provenance.py:1062-1177 | reports exactly the failures of the service launch whose cause holds, each once |
| `ProvenanceChecker.WalkProcesses` | scripts/chapter5_routes/check_route1_target_revision_provenance.py:1135-1176 | one pass over the process tree counts launchers, OBC and radio processes and finds the faulty records |
| `ProvenanceChecker.EvaluateProvenance` | scripts/chapter5_routes/check_route1_target_revision_provenance.py:1180-1365 | the whole check reports exactly the failures whose cause holds; it reports none exactly when the documents show every fact of `ProvenanceFacts` |
| `ProvenanceFacts.AcceptedExactly` | scripts/chapter5_routes/check_route1_target_revision_provenance.py:1180-1365 | the check accepts exactly when the documents show eleven groups of facts, written out without the failure codes: a clean revision of 40 hexadecimal digits with nothing untracked, the marker of schema 3 and both builds and manifest on that revision, one content summary, audited files, release, build inputs, unit, drop-ins, launch command and processes |
| `ProvenanceAltered.MarkerAltered` | scripts/chapter5_routes/check_route1_target_revision_provenance.py:1210-1221 | altering the schema, branch, head or version in the marker of accepted documents is reported as exactly that failure, and as none exactly when the new value is as good |
| `ProvenanceAltered.BuildAltered` | scripts/chapter5_routes/check_route1_target_revision_provenance.py:1258-1299 | the same for the version of either build |
| `ProvenanceAltered.DropInsAltered` | scripts/chapter5_routes/check_route1_target_revision_provenance.py:1101-1106 | the same for the list of drop-ins |
| `ProvenanceAltered.ShowAltered` | scripts/chapter5_routes/check_route1_target_revision_provenance.py:1114-1125 | the same for the unit path, working directory and start command |
| `ProvenanceChain.HashesChain` | scripts/chapter5_routes/check_route1_target_revision_provenance.py:1317-1362 | on acceptance the live build input, the build-time marker, the trusted manifest, the installed manifest and the audited installed file carry one hash, for every packaged input |
| `ProvenanceChain.AuditIsManifest` | scripts/chapter5_routes/check_route1_target_revision_provenance.py:1002-1059 | on acceptance exactly the listed files were audited, each with its listed size and hash |
| `ProvenanceChain.OneObcAsBuilt` | scripts/chapter5_routes/check_route1_target_revision_provenance.py:1135-1176 | on acceptance exactly one OBC, one radio and one launcher process run, nothing unexpected runs, and the OBC executable has the hash recorded when bin/OBC was built |
| `ProvenanceChain.ContentAgrees` | scripts/chapter5_routes/check_route1_target_revision_provenance.py:1223-1249 | on acceptance the local, marker and remote content digests agree |
| `ProvenanceChain.WorkspacesIdentical` | scripts/chapter5_routes/check_route1_target_revision_provenance.py:1223-1249 | on acceptance, without hash collisions, the remote workspace holds exactly the local tracked files |
| `ProvenanceChain.AcceptedInAnyOrder` | scripts/chapter5_routes/check_route1_target_revision_provenance.py:1002-1059 | acceptance does not depend on the order of the manifest's records |
| `ProvenanceComplete.SoundTargetAccepted` | scripts/chapter5_routes/check_route1_target_revision_provenance.py:1180-1365 | acceptance is not empty: every target whose recorded facts agree, captured as three processes with no git head and no further fields, is accepted, whatever its revision, release, files and hashes |
| `Route1Tables.BothProgramsAsBuilt` | scripts/chapter5_routes/check_route1_target_revision_provenance.py:42-58 | with the Route 1 tables both running programs have the hashes the marker recorded at build time |
| `Campaign.WriteResult` | scripts/chapter5_routes/check_route1_target_revision_provenance.py:1368-1394 | records PASS exactly on acceptance, with the failures and the inputs |
| `Campaign.BuildCampaignManifest` | scripts/chapter5_routes/write_route1_campaign_manifest.py:22-124 | annotates every record, keeps their order, and gives the verdict by the last record of each surface; an incomplete identity or a record without a surface raises |
| `Campaign.LatestIsLast` | scripts/chapter5_routes/write_route1_campaign_manifest.py:73-75 | the overwritten dictionary holds the last record of each surface |
| `Campaign.RetainedTargetResumeState` | scripts/chapter5_routes/check_route1_target_revision_provenance.py:1397-1454 | decides by the last target attempt: pending unless it passed, retained when every recheck holds, an error otherwise |
| `CampaignFacts.ManifestExact` | scripts/chapter5_routes/write_route1_campaign_manifest.py:22-124 | when the builder raises, which record is marked authoritative and what the verdict is, said of the records, evidence and provenance document alone |
| `CampaignFacts.ManifestDocuments` | scripts/chapter5_routes/write_route1_campaign_manifest.py:101-121 | the manifest carries the identity, dates and provenance summary it was built from |
| `CampaignFacts.ResumeFacts` | scripts/chapter5_routes/check_route1_target_revision_provenance.py:1397-1454 | pending, retained or an error, said of the documents alone: a retained pass shows authority, the bound hash, a passing summary and provenance whose documents still show every fact |
| `CampaignResume.ResumeExact` | scripts/chapter5_routes/check_route1_target_revision_provenance.py:1397-1454 | on a manifest built from recorded provenance the answer is PENDING, retained or an error exactly as the last target attempt is absent or not passed, authoritative, or passed without authority |
| `CampaignResume.ResumeOutcomes` | scripts/chapter5_routes/write_route1_campaign_manifest.py:22-124 | the same, outcome by outcome, as equivalences |
| `CampaignResume.PassIsRetained` | scripts/chapter5_routes/write_route1_campaign_manifest.py:76-99 | a campaign verdict of PASS always leads to the retained state |
| `CampaignResume.PassNeedsProvenance` | scripts/chapter5_routes/write_route1_campaign_manifest.py:36-70 | no campaign passes without a passing provenance document |
| `CampaignResume.RetainedMeansAccepted` | scripts/chapter5_routes/check_route1_target_revision_provenance.py:1438-1454 | whatever the documents, the retained state means the recorded provenance is accepted again and its hash is the one bound |
| `ArtifactOrder.OrdersAgree` | scripts/chapter5_routes/check_formal_attempt_artifacts.py:61-61 | on paths in pathlib's component order the written strings are in order exactly when the paths do not clash |
| `ArtifactOrder.FooClash` | scripts/chapter5_routes/check_formal_attempt_artifacts.py:197-198 | foo/x and foo-2/y clash |
| `Artifacts.CollectRetainedFiles` | scripts/chapter5_routes/check_formal_attempt_artifacts.py:57-77 | lists every regular file but the manifest, in component order, and raises on other kinds |
| `Artifacts.ValidateRetainedFiles` | scripts/chapter5_routes/check_formal_attempt_artifacts.py:173-220 | reports exactly the failures whose cause holds, each once and in the order of the source; none means acceptance |
| `ArtifactFacts.AcceptsExactly` | scripts/chapter5_routes/check_formal_attempt_artifacts.py:173-220 | accepted exactly when the manifest is a list of well-formed items in strict path order, the tree holds only files and directories, and the items are the retained files one for one with their sizes and hashes |
| `ArtifactFacts.ItemAltered` | scripts/chapter5_routes/check_formal_attempt_artifacts.py:206-220 | another size or hash in one item of an accepted manifest is reported as exactly that |
| `ArtifactImport.UnchangedAcceptedIff` | scripts/chapter5_routes/check_formal_attempt_artifacts.py:197-198 | over an unchanged tree the importer's own manifest is accepted exactly when no two retained files clash |
| `ArtifactImport.AcceptedMeansUnchanged` | scripts/chapter5_routes/check_formal_attempt_artifacts.py:200-220 | without hash collisions an accepted tree holds exactly the imported files: anything added, removed, altered or of another kind is rejected |
| `ArtifactImport.ManifestNotRetained` | scripts/chapter5_routes/import_formal_artifacts.py:214-238 | writing the manifest into the tree changes no retained file |
| `ArtifactImport.FooRefused` | scripts/chapter5_routes/import_formal_artifacts.py:236-236 | over any tree with foo/x and foo-2/y the importer's own manifest is refused |
| `ArtifactImport.EnsureUniqueDestination` | scripts/chapter5_routes/import_formal_artifacts.py:107-116 | the counter loop ends and finds the first free name |
| `ArtifactImport.SelectExternalRoots` | scripts/chapter5_routes/import_formal_artifacts.py:194-212 | kept outside roots never lie within one another or the wrapper, and every found path is in the wrapper, in a kept root, or could not be copied |

## Left out

- FrameDecoder.ParseTmFrames: frame sizes below eight octets, where the source's slices go negative, are not modelled; the command line default is 1024.
- HandshakeReader.ParseTmPackets: the same frame sizes below eight octets are not modelled.
- HandshakeReader.LoadHandshakeMessages: the same frame sizes below eight octets are not modelled.
- FrameDecoder.ParseTcFrames: no growth property is stated for telecommand captures, because whether a frame is accepted depends on where the capture ends.
- AdcsSim.StepKeepsUnit: holds of real arithmetic; rounding of doubles and the narrowing to float are not modelled.
- AdcsSim.DetumbleRates: the integer mixing that produces the noise is an arbitrary 32-bit word per stream and second, which covers it and every other mixer.
- DownlinkSender.Run: the largest gap and largest acknowledged count printed at the end are not modelled, since nothing is decided by them; nor are failures to read the file or start the runtime (codes 1, 2 and 4).
- SessionStore.Store.Establish: the handshake with the spacecraft before it is not modelled beyond its message readers, and two tool processes racing on one state file are not modelled.
- SessionStore.Store.SendCommand: how a command is encoded and its authentication tag computed is not modelled.
- AuthorityCatalog.CollapseByOpcode: reading and validating the policy file before the collapse is not modelled.
- AdcsModel.RunKeepsRates: runs that seed the rates by hand are outside it, because any rate can be seeded.
- ContentDigest.TrackedContentSummary: the git object id is an arbitrary function of the content, and how the list of paths is obtained from git is not modelled; a path is shorter than 2^64 octets.
- ProvenanceChecker.EvaluateProvenance: a list of tracked paths that is not all strings counts as invalid; the source then reports the same failure or stops with a TypeError. The order of reported failures is not stated.
- ProvenanceChecker.EvaluateInstalledManifestFiles: the files are compared in the order of the records; the source sorts them first, which changes the order of the failures only.
- ProvenanceChecker.EvaluateServiceLaunch: the order of reported failures is not stated.
- ProvenanceComplete.SoundTargetAccepted: one shape of documents; acceptance of other shapes is what `ProvenanceChecker.EvaluateProvenance` states.
- ProvenanceChain.HashesChain: the capture of the documents on the target and over ssh is not modelled, so the result binds what the documents say.
- Campaign.WriteResult: the JSON text itself is not modelled; a document is what reading it back gives. Numbers that are not finite are not modelled.
- Artifacts.ValidateRetainedFiles: the checks of the record, of the artifact roots and of the attempt's own provenance file around it are not modelled, since each only compares one field.
- ArtifactImport.SelectExternalRoots: whether copying a path copies anything is an input, and scanning log texts for path names is not modelled.
- HMAC, SHA-256 and key files: arbitrary functions, or not present.
- The flight components themselves (mode manager, watchdog, recovery, boot, command ingress), the reliable downlink receiver, the probes, the operator web page and the process, port and journal handling of the launch scripts: mostly wiring and operating-system effects; the receiver's implementation would only add to the sender's side.
- The V2 downlink sender: the same flush argument as V3 without retries.
