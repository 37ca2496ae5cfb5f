# MeckChat: verified protocol stack

A Dafny model of the protocol layers of MeckChat, a peer-to-peer messenger, with proofs of what the
layers promise. Every layer is modelled twice: as a class or a method that changes its fields step by
step as the C++ does, and as functions on values that say what each step computes. The methods are
proved equal to the functions; the properties of the protocol, over every input or every run, are
proved about the functions.

| layer | modules | main results |
|---|---|---|
| CRC and frames | Bytes, Bits, Crc32, Framing | `CrcIsPolynomialRemainder`, `DecodeIffEncoded`, `BurstRejected` |
| Frame channel | StreamDecoder, StreamRecovery, P2PSocket, Channel | `ScannedInTwo`, `DamageCostsOnlyItself`, `InOrderDelivery`, `ReadBoundIsExact` |
| File names and chunks | FileNames, FileChunk | `SanitizeSpec`, `ChunkRoundTrip` |
| File transfer | FileTransfer, FileTransferController, TransferDisk, TransferStop, TransferHandles, TransferSafety, TransferCompletion | `DiskAgreesWithSessions`, `CancelStopsBoth`, `OutgoingHandlesExact`, `TransferSafety`, `TransferCompletes` |
| File transfer over the channel | TransferChannel | `FileCrossesChannel` |
| MQTT 3.1.1 | MqttCodec, MqttStream, MqttClient, MqttHandshake, MqttSignaling | `RemainingLengthCodec`, `ReadBoundariesDoNotMatter`, `PublishesArrive`, `StreamIsAnswered` |
| Netlink attributes | Netlink, NetlinkWireGuard, NetlinkDevice | `RecoveredIffFit`, `MessageDescribesDevice`, `TypicalRequestFits` |
| Pairing | ReplayCache, Pairing, PairingProof, PairingSession | `ReplaySafety`, `PairedOnlyByProof`, `HonestRunPairs`, `AlteredRequestIff` |
| Chat | Chat, ChatSafety, ChatDelivery, ChatController | `TimersExact`, `TypingAlternates`, `DeliveredWasEmitted`, `AnsweredIsDelivered`, `IndicatorFollows` |

How the surroundings enter:

- Bytes are integers from 0 to 255. Where the source stores a length in 16 or 32 bits, or casts it to
  `int`, the model cuts it there too.
- Each signal, slot, timer callback or call is one step. A Qt timer is live or not live. Time is a
  parameter; where the source reads the clock twice in one slot, the model takes two readings.
- A socket takes as many bytes of a write as it likes. A network between two controllers may lose,
  repeat and reorder messages, but invents none.
- Records travel as values; JSON, UTF-8 and base64 are not modelled, or are parameters.
- SHA-256, HMAC, Argon2id and X25519 are parameters. Where a result needs more than that they are
  functions, its `requires` says so: no collision among the prefixes of one file, the two X25519 secrets
  of one exchange being equal.
- Fresh keys, salts and ids are parameters; that ids are fresh is part of the `Allowed` predicates.

Promises that hold only under a condition, which is proved exactly:

- Offered file names are not kept apart from the names of temporary files, `.tmp_` followed by a transfer
  id. Under the name of its own temporary file a transfer fails, and the receiver deletes the file that it
  has just verified; under any other name it completes, where the temporary file is there and can be renamed,
  and the final file is what was received exactly if the temporary file still holds that
  (`TransferDisk.TempNameLosesFile`, with a run in `TransferDisk.TempNameRun`). It holds that until a transfer is delivered under the name of this temporary
  file with another content (`TransferDisk.DeliverySparesIff`, `TransferDisk.EmptyFileSparesIff`). In
  `TransferDisk.TwoOffersRun` such a transfer completes with its own hash and the content of another one.
  An empty file under the name of its own temporary file ends completed and is not there
  (`TransferDisk.EmptyFileOutcome`). Results about the disk therefore assume that an offered name is not the
  temporary name of a known transfer, nor the name of a known transfer the temporary name of the new one;
  results about what is received and hashed assume nothing about names.
- An offer under an id that is known replaces the session. Received bytes stay a prefix of the source
  (`TransferSafety.TransferSafety`). No temporary file is orphaned exactly if no file has the temporary name
  of that id, for a known incoming transfer exactly if it is not running (`TransferDisk.RepeatedOfferIff`).
  Where an own transfer was streaming under the id, its pending timer completes the incoming transfer
  without a byte received, once that is accepted; without a pending timer it goes on
  (`TransferDisk.StaleTimerIff`, with a run in `TransferDisk.StaleTimerRun`).
- An outgoing transfer that does not stream has its source file closed exactly unless it failed on a chunk
  that could not be read (`TransferHandles.OutgoingHandlesExact`, with a run in
  `TransferHandles.UnreadableRun`).
- A read receipt may be sent for an id of which no message was signalled. The sender then tracks a message
  as read that the other side has never signalled (`ChatSafety.EarlyReceipt`); a receipt is for a signalled
  message exactly if the id was signalled before the receipt was sent (`ChatSafety.ReceiptIff`). The source
  has no caller that sends one. A message that is tracked as delivered was signalled in every run.
- A read of more than 4 MiB - 11 bytes behind an almost complete packet of maximal size trips the growth
  guard and loses the packet; a shorter read does not (`Channel.ReadBoundIsExact`).
- Behind eight or more bytes of junk a packet that arrives in two reads is delivered exactly unless the first
  read ends between its two magic bytes; then the first of them is thrown away with the junk
  (`StreamRecovery.CutBehindJunkIff`).
- A frame with a payload above 4 MiB is encoded but never delivered (`StreamDecoder.DeliveredIffFits`), and
  everything that is buffered behind it is discarded (`StreamDecoder.OversizedDiscardsAll`). Up to
  16 MiB - 12 bytes an empty queue takes it all the same; a larger one is refused (`Channel.AcceptedIff`).
- A PUBLISH whose QoS argument is a positive multiple of 4 carries a packet id that its header does not
  announce, and is misread; every other QoS is read back (`MqttCodec.PublishRoundTrip`). The three callers
  in the source all publish with QoS 1.
- A string or a netlink attribute that does not fit its 16-bit length is not read back, all others are
  (`MqttCodec.StringRoundTrip`, `Netlink.RecoveredIffFit`).
- A transfer id survives a chunk header exactly if it is not empty, has at most 16 bytes, holds no null,
  does not begin with white space and, when it has all 16 bytes, does not end with it
  (`FileChunk.ChunkRoundTrip`); the generated ids do.
- Registering a session under an id that the replay cache already holds replaces the entry. Replays of the
  earlier one stay refused exactly if that had expired, or the new entry is not older and the transcript is
  still held (`ReplayCache.RegisterKeepsRefusalIff`). A request with the id `s_resp` and then one with the
  id `s` are a run after which the first is admitted again (`Pairing.ResponseIdEndsGuard`), so replay safety
  assumes that fresh ids, and the id of the answer to an admitted request, which carries the suffix `_resp`,
  are not those of admitted messages that are still valid. All other messages are unrestricted.
- A proof is about the transcript: sender, receiver, timestamp and key, one after another. An honest message
  that was altered on the way is accepted exactly if the HMACs of the two transcripts are equal
  (`PairingProof.AlteredRequestIff`, `PairingProof.AlteredResponseIff`); each transcript field by itself is told
  apart exactly as its encoding is (`PairingProof.TranscriptFields`), two neighbouring ones as their joint
  encoding is (`PairingProof.TranscriptPairs`). The session id and the virtual address are not in it.
- A reader of the configuration message finds the interface name exactly if that holds no null
  (`NetlinkDevice.MessageDescribesDevice`).

Verify with `dafny verify dfyconfig.toml`.

## Model

| member | source | states |
|---|---|---|
| Crc32.GeneratorConstant | src/protocol/framing.cpp:14 | the constant 0xEDB88320 is the reflected generator polynomial of IEEE Std 802.3 |
| Crc32.MaskedStep | src/protocol/framing.cpp:12-15 | the branch-free mask form is the conditional bit step |
| Crc32.ShiftOutByte | src/protocol/framing.cpp:12-15 | the inner loop performs eight bit steps |
| Crc32.CalculateCrc32 | src/protocol/framing.cpp:7-18 | the nested loops compute the CRC function of the bytes |
| Crc32.RunAppend | src/protocol/framing.cpp:9-16 | the running register composes over concatenation |
| Crc32.Preload | src/protocol/framing.cpp:10-15 | xoring a whole byte in before its eight steps equals feeding its bits one by one |
| Crc32.FeedAllDivides | src/protocol/framing.cpp:9-16 | the register is always the remainder of what was fed, divided by the generator |
| Crc32.CrcIsPolynomialRemainder | src/protocol/framing.cpp:6-18 | for every byte string the CRC is the polynomial remainder of section 3.2.9 of IEEE Std 802.3, and the only one |
| Crc32.FeedAllLinear | src/protocol/framing.cpp:9-16 | the register is linear over xor in start value and message |
| Crc32.CrcIsAffine | src/protocol/framing.cpp:7-18 | messages of equal length with equal xor have CRCs with equal xor |
| Crc32.FeedInjective | src/protocol/framing.cpp:12-15 | a bit step is injective on the register |
| Crc32.WindowInjective | src/protocol/framing.cpp:9-16 | different windows of at most 32 bits lead to different registers |
| Crc32.BurstDetected | src/protocol/framing.cpp:9-16 | every error confined to 32 consecutive bits changes the register, whatever surrounds it |
| Crc32.ChecksumDetectsBurst | src/protocol/framing.cpp:7-18 | rewriting up to four consecutive bytes changes the checksum |
| Framing.PacketFields | src/protocol/framing.cpp:20-47 | where magic, type, length, payload and checksum stand in a packet, and that each has its value |
| Framing.DecodeEncoded | src/protocol/framing.cpp:20-77 | decoding an encoded frame gives it back, exactly when the size fits an int |
| Framing.DecodedIsEncoded | src/protocol/framing.cpp:49-77 | whatever is decoded encodes to the very bytes it came from |
| Framing.DecodeIffEncoded | src/protocol/framing.cpp:49-77 | the decoder accepts exactly the encodings of frames |
| Framing.BurstRejected | src/protocol/framing.cpp:49-77 | altering any window of up to four consecutive bytes in header or payload makes the decoder reject |
| StreamDecoder.IndexOfMagic | src/network/p2p_socket.cpp:62 | the first place of the magic bytes from a position on, or that there is none |
| StreamDecoder.ProcessStreamBuffer | src/network/p2p_socket.cpp:40-99 | the loop leaves the buffer, frames and error of the recursive scan behind the growth guard |
| StreamDecoder.TurnAppend | src/network/p2p_socket.cpp:54-88 | a resynchronisation or a complete packet stays what it is when more bytes arrive |
| StreamDecoder.ScannedInTwo | src/network/p2p_socket.cpp:54-98 | on arbitrary bytes, damaged ones included, decoding in two parts is decoding at once, unless bytes were thrown away |
| StreamDecoder.ReceivedInTwo | src/network/p2p_socket.cpp:40-99 | the same for reads within the growth guard |
| StreamDecoder.ScannedPacket | src/network/p2p_socket.cpp:71-95 | a packet at the front is consumed whole and yields its frame, whatever follows |
| StreamDecoder.ScannedPartialPacket | src/network/p2p_socket.cpp:80-84 | a proper prefix of a packet is kept until more arrives |
| StreamDecoder.ScannedPrefix | src/network/p2p_socket.cpp:54-98 | a prefix of an encoded stream yields exactly the frames it holds whole, without an error |
| StreamDecoder.DeliveredIffFits | src/network/p2p_socket.cpp:73-78 | a packet is delivered exactly when its payload is within the limit |
| StreamDecoder.OversizedDiscardsAll | src/network/p2p_socket.cpp:73-78 | an oversized packet at the front yields nothing, and all that follows it in the buffer is discarded |
| StreamDecoder.ScannedStream | src/network/p2p_socket.cpp:54-98 | a whole encoded stream yields exactly its frames, with nothing left |
| StreamRecovery.AllIsJunkIff | src/network/p2p_socket.cpp:59-70 | everything is discarded as junk if and only if there are eight bytes and the magic bytes stand nowhere |
| StreamRecovery.ScannedJunk | src/network/p2p_socket.cpp:59-66 | junk is skipped up to the first magic bytes and reported; what follows is decoded as if it came alone |
| StreamRecovery.ScannedDamaged | src/network/p2p_socket.cpp:87-96 | a packet that the frame decoder rejects is skipped whole and reported |
| StreamRecovery.BurstDamages | src/network/p2p_socket.cpp:87-96 | overwriting up to four consecutive bytes of the payload, or the type, makes such a packet |
| StreamRecovery.DamageCostsOnlyItself | src/network/p2p_socket.cpp:54-98 | however whole packets, damaged ones and junk follow each other: exactly the frames of the whole ones are delivered, in order |
| StreamRecovery.ScannedIsNotLonger | src/network/p2p_socket.cpp:54-98 | the frames decoded and the bytes kept never take more room than what arrived |
| StreamRecovery.CutBehindJunkIff | src/network/p2p_socket.cpp:59-70 | behind junk, a packet in two reads is delivered if and only if the cut is not between its magic bytes |
| P2PSocket.FlushConserves | src/network/p2p_socket.cpp:196-216 | a flush loses, repeats and reorders no byte, and writes as much as the socket takes |
| P2PSocket.P2PSocket.constructor | src/network/p2p_socket.cpp:8-18 | a new socket is disconnected with empty buffers |
| P2PSocket.P2PSocket.ConnectToPeer | src/network/p2p_socket.cpp:136-148 | a new connection starts with empty queue and read buffer |
| P2PSocket.P2PSocket.DisconnectFromPeer | src/network/p2p_socket.cpp:150-157 | an open connection is closing, and its socket is asked to; a closed one stays closed |
| P2PSocket.P2PSocket.OnSocketConnected | src/network/p2p_socket.cpp:218-223 | connecting moves from the queue to the wire as many bytes as the socket takes, and loses none |
| P2PSocket.P2PSocket.OnSocketDisconnected | src/network/p2p_socket.cpp:225-232 | disconnecting empties queue and read buffer |
| P2PSocket.P2PSocket.FlushWriteQueue | src/network/p2p_socket.cpp:196-216 | the loop leaves queue and wire as the flush function says; the byte count stays exact |
| P2PSocket.P2PSocket.SendFrame | src/network/p2p_socket.cpp:159-194 | queued, flushed and broadcast, or refused with nothing changed when the queue is full |
| P2PSocket.P2PSocket.WriteToServerPeers | src/network/p2p_socket.cpp:178-186 | exactly the connected peers are sent the packet |
| P2PSocket.BroadcastSends | src/network/p2p_socket.cpp:178-190 | over any sequence of frames every connected peer is sent the bytes of all of them in order, and no other peer anything |
| P2PSocket.BroadcastIsDecoded | src/network/p2p_socket.cpp:178-190 | and decodes exactly these frames |
| P2PSocket.P2PSocket.OnSocketReadyRead | src/network/p2p_socket.cpp:234-265 | the frames of buffer and read are signalled in order, the rest is kept |
| P2PSocket.P2PSocket.OnServerPeerReadyRead | src/network/p2p_socket.cpp:251-265 | each accepted connection is decoded in its own buffer, the others stay |
| Channel.StepKeepsInv | src/network/p2p_socket.cpp:159-216 | every send, flush and read keeps: what was accepted and not emitted is what is buffered, in flight and queued |
| Channel.InOrderDelivery | src/network/p2p_socket.cpp:40-99 | in every run the frames emitted are a prefix of those accepted, without error, and all of them once drained |
| Channel.AcceptedIff | src/network/p2p_socket.cpp:159-176 | an empty queue accepts a frame exactly up to 16 MiB with its overhead, and a refused one changes nothing |
| Channel.ReadBoundIsExact | src/network/p2p_socket.cpp:47-52 | behind an almost complete maximal packet a read trips the growth guard exactly above 4 MiB - 11 bytes |
| FileNames.SanitizeSpec | src/protocol/models.cpp:170-183 | the result is always safe (not empty, no slash, backslash or double dot), and safe names are exactly the fixed points |
| FileNames.SanitizeIdempotent | src/protocol/models.cpp:185-212 | sanitising at several places is sanitising once |
| FileNames.SanitizeKeepsName | src/protocol/models.cpp:170-183 | only the part behind the last separator counts; a safe one is kept, of any other the letters survive in order |
| FileChunk.IdFieldRoundTrip | src/protocol/models.cpp:283-322 | which ids survive the fixed 16-byte field, if and only if |
| FileChunk.ChunkRoundTrip | src/protocol/models.cpp:279-333 | a chunk is decoded to itself exactly when its id survives, for every index and data |
| FileChunk.ChunkDecodedIff | src/protocol/models.cpp:305-333 | which bytes are decoded to which index and data, if and only if |
| FileChunk.GeneratedIdIsStable | src/protocol/models.cpp:166-168 | ids as they are generated survive |
| FileTransferController.Controller.SendFileTo | src/protocol/file_transfer_controller.cpp:50-103 | the session and the offer that sending a file makes, or nothing for an unreadable file |
| FileTransferController.Controller.Accept | src/protocol/file_transfer_controller.cpp:105-166 | the whole new state of accepting, empty files and a failed open included |
| FileTransferController.Controller.Reject | src/protocol/file_transfer_controller.cpp:168-192 | the whole new state of rejecting |
| FileTransferController.Controller.Cancel | src/protocol/file_transfer_controller.cpp:194-218 | the whole new state of cancelling |
| FileTransferController.Controller.CleanupSession | src/protocol/file_transfer_controller.cpp:503-514 | the handle is closed and the temporary file removed |
| FileTransferController.Controller.SendNext | src/protocol/file_transfer_controller.cpp:329-387 | the next chunk and a timer, or the completion, or a failure |
| FileTransferController.Controller.TimerFires | src/protocol/file_transfer_controller.cpp:383-386 | a pending timer is used up and sends the next chunk |
| FileTransferController.Controller.HandleInboundFileOffer | src/protocol/file_transfer_controller.cpp:267-296 | the incoming session that an offer makes |
| FileTransferController.Controller.HandleInboundFileAccept | src/protocol/file_transfer_controller.cpp:298-327 | streaming starts, or the session fails |
| FileTransferController.Controller.HandleInboundFileReject | src/protocol/file_transfer_controller.cpp:389-403 | the session is rejected and cleaned up |
| FileTransferController.Controller.HandleInboundFileChunk | src/protocol/file_transfer_controller.cpp:405-442 | the expected chunk is written, hashed and counted; any other fails the session |
| FileTransferController.Controller.HandleInboundFileComplete | src/protocol/file_transfer_controller.cpp:444-485 | hash check, replacement of the final file, and the failures of both |
| FileTransferController.Controller.HandleInboundFileCancel | src/protocol/file_transfer_controller.cpp:487-501 | the session is cancelled and cleaned up |
| FileTransferController.Controller.OnFrameReceivedFrom | src/protocol/file_transfer_controller.cpp:241-265 | every message reaches its handler |
| FileTransferController.Controller.OnDisconnected | src/protocol/file_transfer_controller.cpp:516-531 | exactly the sessions that are offering or transferring fail |
| TransferDisk.ActKeeps | src/protocol/file_transfer_controller.cpp:50-531 | every step, whatever is offered, keeps sessions, handles and temporary paths in shape; in a state whose names are apart it keeps that temporary files hold what was hashed, and without a repeated offer of a running transfer or a failed rename of an empty file it orphans none |
| TransferDisk.ActKeepsInv | src/protocol/file_transfer_controller.cpp:50-531 | with offered names that are free, no timer pending under an offered id and no orphan made, every step keeps sessions, names, timers and files in agreement |
| TransferDisk.NamesKept | src/protocol/file_transfer_controller.cpp:267-296 | the names of known transfers stay apart from temporary names while every offered name is free |
| TransferDisk.TimersKept | src/protocol/file_transfer_controller.cpp:329-387 | a step adds timers for outgoing transfers only |
| TransferDisk.RepeatedOfferIff | src/protocol/file_transfer_controller.cpp:281-292 | an offer leaves the disk as it is, without orphans if and only if no file has its temporary name, for a known incoming transfer if and only if that is not running; no timer is then pending for it if and only if none was under its id |
| TransferDisk.StaleTimerIff | src/protocol/file_transfer_controller.cpp:329-387 | an accepted transfer ends completed when a timer fires, with nothing received and its temporary file left, if and only if a timer of an earlier transfer was pending under its id |
| TransferDisk.StaleTimerRun | src/protocol/file_transfer_controller.cpp:281-387 | a run from a new controller, of an own transfer that streams, an offer under its id, acceptance and timer, that ends so |
| TransferDisk.DiskAgreesWithSessions | src/protocol/file_transfer_controller.cpp:444-514 | after every run the temporary file of an incoming session exists, open, exactly while it is transferring, with what was hashed as content |
| TransferDisk.OrdinaryFilesSurvive | src/protocol/file_transfer_controller.cpp:503-531 | no step deletes or changes a file without the temporary name of a known transfer, but for a delivery to its path; whatever was offered |
| FileTransfer.SameDigestIff | src/protocol/file_transfer_controller.cpp:463-464 | two digests are taken as equal if and only if they differ in nothing but the case of letters |
| TransferDisk.DeliveryOutcome | src/protocol/file_transfer_controller.cpp:457-485 | a transfer completes if and only if hash and rename agree; then the final file is what was received |
| TransferDisk.TempNameLosesFile | src/protocol/file_transfer_controller.cpp:465-477 | for any offered names: a transfer completes if and only if hash and rename agree, its temporary file is there and has not the offered name, and loses its file otherwise; the final file is what was received if and only if the temporary file held it |
| TransferDisk.DeliverySparesIff | src/protocol/file_transfer_controller.cpp:463-477 | after one transfer is delivered, the temporary file of another still holds what that received if and only if it is another path or gets the same content |
| TransferDisk.EmptyFileSparesIff | src/protocol/file_transfer_controller.cpp:105-163 | the same when an empty file is accepted |
| TransferDisk.TempNameRun | src/protocol/file_transfer_controller.cpp:267-485 | a run from a new controller, of offer, acceptance, chunk and completion, that loses the file |
| TransferDisk.TwoOffersRun | src/protocol/file_transfer_controller.cpp:267-485 | a run from a new controller in which a transfer completes with its hash checked and another transfer's content at its final path |
| TransferDisk.EmptyFileOutcome | src/protocol/file_transfer_controller.cpp:156-163 | an empty file ends completed, and is there if and only if the rename succeeds and the name is not that of the temporary file |
| TransferStop.CancelEnds | src/protocol/file_transfer_controller.cpp:194-218 | cancelling ends a known transfer, whatever its state: cancelled, closed, temporary file gone, the peer told; an unknown one is left alone |
| TransferStop.RejectEnds | src/protocol/file_transfer_controller.cpp:168-192 | rejecting ends it in the same way |
| TransferStop.StopArrives | src/protocol/file_transfer_controller.cpp:389-501 | so does the message of the peer, with nothing sent for it |
| TransferStop.DroppedDoesNothing | src/protocol/models.cpp:193-272 | messages without an id or a digest, and offers of negative size, do nothing |
| TransferStop.OfferOutcome | src/protocol/file_transfer_controller.cpp:267-296 | any other offer makes a session with its fields and the sanitised name, and touches nothing else |
| TransferStop.ChunkOutcome | src/protocol/file_transfer_controller.cpp:405-442 | the expected chunk is added, any other ends the transfer, and one for a transfer that is not running does nothing |
| TransferStop.AcceptOutcome | src/protocol/file_transfer_controller.cpp:105-147 | the peer is told of an acceptance if and only if the file could be opened; otherwise the transfer fails |
| TransferStop.SourceOutcome | src/protocol/file_transfer_controller.cpp:298-320 | a source file that cannot be opened fails the transfer, with nothing sent |
| TransferStop.DisconnectEnds | src/protocol/file_transfer_controller.cpp:516-531 | a disconnect ends exactly the transfers offered or running, and removes exactly their temporary files |
| TransferStop.StaysStopped | src/protocol/file_transfer_controller.cpp:50-531 | no step but a new offer takes a transfer out of the stopped state, or sends anything but stops for it |
| TransferStop.RunStaysStopped | src/protocol/file_transfer_controller.cpp:50-531 | and no run of such steps |
| TransferStop.CancelStopsBoth | src/protocol/file_transfer_controller.cpp:194-501 | once a cancel has arrived, both sides are cancelled and clean, and no later timer, chunk, acceptance or completion moves or leaves either |
| TransferHandles.ActKeepsHandles | src/protocol/file_transfer_controller.cpp:298-387 | every step keeps track of which source files are open |
| TransferHandles.OutgoingHandlesExact | src/protocol/file_transfer_controller.cpp:329-387 | after every run an outgoing transfer that does not stream has its file closed exactly unless it failed on an unreadable chunk |
| TransferHandles.UnreadableRun | src/protocol/file_transfer_controller.cpp:361-366 | a run that fails on its first chunk and leaves the file open |
| TransferSafety.NextChunk | src/protocol/file_transfer_controller.cpp:361-379 | the next chunk extends the prefix sent so far, and the counters with it |
| TransferSafety.SenderActs | src/protocol/file_transfer_controller.cpp:50-531 | every message of a sender tells the truth about the file that it announced |
| TransferSafety.ReceiverActs | src/protocol/file_transfer_controller.cpp:405-485 | every message of an honest network keeps what a receiver has written a prefix of that file |
| TransferSafety.RunKeepsFiles | src/protocol/file_transfer_controller.cpp:405-514 | in every run in which the offered names were free, temporary files hold what was received |
| TransferSafety.TransferSafety | src/protocol/file_transfer_controller.cpp:405-485 | in every run over a network that loses, reorders and repeats, offers of any name included: received bytes are a prefix of the source; completed means equal hash, and equal content without collision; the temporary file holds them if offered names were free |
| TransferSafety.CompletionDelivers | src/protocol/file_transfer_controller.cpp:444-485 | at the step that completes it, the final file is the source if and only if the temporary file held what was received; if offered names were free it did, and the step completes if and only if hash and rename agree |
| TransferCompletion.CountIsCeiling | src/protocol/file_transfer_controller.cpp:70 | the chunk count is the number of chunks with a first byte, and fits an int |
| TransferCompletion.ScriptCarriesSource | src/protocol/file_transfer_controller.cpp:337-379 | the chunks in order carry exactly the file, and there are as many as announced |
| TransferCompletion.TickProgresses | src/protocol/file_transfer_controller.cpp:329-387 | every timer or delivery keeps the invariant and reduces what is left |
| TransferCompletion.TransferCompletes | src/protocol/file_transfer_controller.cpp:329-485 | without loss: one timer at most, each chunk once in order, one completion, and at the end the source at the receiver |
| TransferChannel.FramesCarry | src/protocol/file_transfer_controller.cpp:347-376 | messages come back from their frames, and the frames fit the channel |
| TransferChannel.ScriptCarried | src/protocol/models.cpp:279-333 | every chunk and the completion of a transfer are carried by their frames |
| TransferChannel.FedInv | src/protocol/file_transfer_controller.cpp:405-485 | a receiver that is fed any part of what was sent stays in step with the sender |
| TransferChannel.SomeRunCarries | src/network/p2p_socket.cpp:159-216 | any frames that fit are carried by some run of the channel |
| TransferChannel.FileCrossesChannel | src/network/p2p_socket.cpp:40-265 | from disk to disk through frames, queue, partial writes, cut reads and decoder: received bytes are always a prefix of the source, and the file is the source once all is drained |
| TransferChannel.FedIsSafe | src/protocol/file_transfer_controller.cpp:405-485 | a receiver that is fed any of the transfer's messages, in any order and number, has a prefix of the source, and completes with its hash only |
| TransferChannel.DroppedFramesAreSafe | src/network/p2p_socket.cpp:159-265 | from disk to receiver when the queue refuses any of the frames: received bytes are still a prefix of the source, and a completed transfer has its hash |
| MqttCodec.EncodeVariableLength | src/network/mqtt_signaling.cpp:81-92 | the loop writes the base-128 digits, at most four |
| MqttCodec.DecodeVariableLength | src/network/mqtt_signaling.cpp:94-117 | the loop reads them, or reports failure |
| MqttCodec.ReadVarLength | src/network/mqtt_signaling.cpp:81-117 | round trip with any trailing bytes while the digits suffice, malformed otherwise |
| MqttCodec.ReadVarLengthPrefix | src/network/mqtt_signaling.cpp:94-117 | every strict prefix is incomplete |
| MqttCodec.VarLengthShortest | src/network/mqtt_signaling.cpp:81-92 | no shorter digits are read as the same number |
| MqttCodec.RemainingLengthCodec | src/network/mqtt_signaling.cpp:81-117 | section 2.2.3 of MQTT 3.1.1: round trip exactly below 2^28, shortest form, prefixes incomplete |
| MqttCodec.StringRoundTrip | src/network/mqtt_signaling.cpp:119-141 | a string is read back, whatever surrounds it, exactly when its length fits 16 bits |
| MqttCodec.PublishRoundTrip | src/network/mqtt_signaling.cpp:350-374 | section 3.3 of MQTT 3.1.1: topic, id and payload are read back, exactly when the header announces the id that is there; the header holds QoS and retain flag |
| MqttStream.TurnAppend | src/network/mqtt_signaling.cpp:419-443 | what the front of the buffer decided stays decided |
| MqttStream.ParsedInTwo | src/network/mqtt_signaling.cpp:418-466 | parsing in two parts is parsing at once, also when the connection is dropped |
| MqttStream.ReadBoundariesDoNotMatter | src/network/mqtt_signaling.cpp:216-219 | on any bytes and any reads, what is dispatched and kept depends on the bytes alone |
| MqttStream.ParsedPacket | src/network/mqtt_signaling.cpp:424-443 | a packet at the front is consumed whole, and a refusing CONNACK drops the connection |
| MqttStream.ReadBackIffSizable | src/network/mqtt_signaling.cpp:363-368 | a packet is read back exactly when its length fits four digits |
| MqttStream.ParsedPrefix | src/network/mqtt_signaling.cpp:418-466 | a prefix of a well-formed stream never drops the connection and yields the packets that it holds whole |
| MqttStream.ParsedStream | src/network/mqtt_signaling.cpp:418-466 | a well-formed stream is its packets |
| MqttClient.PacketIdsCycle | src/network/mqtt_signaling.cpp:143-146 | the k-th id is k modulo 65535, plus one; never 0 |
| MqttClient.DispatchedGrows | src/network/mqtt_signaling.cpp:445-557 | one packet is acknowledged and handed on as it asks for, whatever else is sent for it |
| MqttClient.AcknowledgesExactly | src/network/mqtt_signaling.cpp:529-557 | over every stream: acknowledgements and payloads are exactly those of the PUBLISH packets, in order |
| MqttClient.RequestsAreRead | src/network/mqtt_signaling.cpp:350-374 | the packets of any list of publish calls are well-formed and read back as the valid ones within the limit |
| MqttClient.PublishesArrive | src/network/mqtt_signaling.cpp:350-557 | from one client to another, however the bytes are read: the valid payloads in order, the sender's ids acknowledged in order |
| MqttHandshake.ConnectIsRead | src/network/mqtt_signaling.cpp:277-311 | section 3.1 of MQTT 3.1.1: a reader of CONNECT finds protocol, level, clean session, retained will of QoS 1, keepalive, client id and will |
| MqttHandshake.FiltersAreRead | src/network/mqtt_signaling.cpp:325-348 | section 3.8.3: a reader of SUBSCRIBE finds every filter with its QoS |
| MqttHandshake.HandshakeCompletes | src/network/mqtt_signaling.cpp:468-514 | an acceptance and then a grant lead to exactly one SUBSCRIBE for all filters and one retained announcement, with the next two ids, and to the ready state |
| MqttHandshake.RefusalDrops | src/network/mqtt_signaling.cpp:468-481 | a refusal drops the connection and sends nothing, and nothing is sent without a connection |
| MqttHandshake.StreamIsAnswered | src/network/mqtt_signaling.cpp:445-610 | over every stream: one SUBSCRIBE for each acceptance, one announcement for each grant and discovery request, in order, with consecutive ids, and nothing else but acknowledgements |
| MqttHandshake.StateIsLast | src/network/mqtt_signaling.cpp:445-527 | over every stream: ready if and only if the last packet on the matter is a grant; a ping is outstanding until it is answered |
| MqttSignaling.MqttSignalingClient.constructor | src/network/mqtt_signaling.cpp:28-50 | a new client has no connection and id 1 next |
| MqttSignaling.MqttSignalingClient.ConnectToBroker | src/network/mqtt_signaling.cpp:163-182 | a connection starts with an empty buffer |
| MqttSignaling.MqttSignalingClient.OnSocketEncrypted | src/network/mqtt_signaling.cpp:210-214 | the connection is up; the CONNECT packet is on it and nothing was dispatched |
| MqttSignaling.MqttSignalingClient.SendConnect | src/network/mqtt_signaling.cpp:277-321 | one CONNECT with client id, will and keepalive on the wire |
| MqttSignaling.MqttSignalingClient.OnSocketDisconnected | src/network/mqtt_signaling.cpp:237-250 | the connection is dropped and the buffer empty |
| MqttSignaling.MqttSignalingClient.NextPacketId | src/network/mqtt_signaling.cpp:143-146 | the id taken, and the counter after it with 16-bit wrap-around |
| MqttSignaling.MqttSignalingClient.SendPublish | src/network/mqtt_signaling.cpp:350-374 | one packet on the wire, with an id for QoS above 0, or nothing for an invalid topic |
| MqttSignaling.MqttSignalingClient.SendSubscribe | src/network/mqtt_signaling.cpp:325-348 | one packet with all filters and their QoS on the wire |
| MqttSignaling.MqttSignalingClient.SendPuback | src/network/mqtt_signaling.cpp:376-384 | one acknowledgement on the wire |
| MqttSignaling.MqttSignalingClient.HandleConnack | src/network/mqtt_signaling.cpp:468-495 | subscribes, or drops the connection and its buffer |
| MqttSignaling.MqttSignalingClient.HandlePublish | src/network/mqtt_signaling.cpp:529-557 | acknowledges, hands on, or ignores |
| MqttSignaling.MqttSignalingClient.Dispatch | src/network/mqtt_signaling.cpp:445-464 | the switch on the packet type |
| MqttSignaling.MqttSignalingClient.ProcessIncomingData | src/network/mqtt_signaling.cpp:418-466 | the loop dispatches exactly the packets of the buffer and keeps the incomplete rest |
| MqttSignaling.MqttSignalingClient.OnSocketReadyRead | src/network/mqtt_signaling.cpp:216-219 | after every read, what was dispatched on the connection is the parse of all bytes read on it |
| Netlink.SealedSize | src/network/netlink_wireguard.cpp:39-54 | an attribute takes its aligned size, also when its 16-bit length wraps |
| Netlink.NextOfSealed | src/network/netlink_wireguard.cpp:597-612 | what the walk finds at an attribute, for every content length |
| Netlink.RecoveredIsNotLonger | src/network/netlink_wireguard.cpp:597-612 | what the walk recovers never takes more room than what it walked |
| Netlink.RecoveredIffFit | src/network/netlink_wireguard.cpp:597-612 | the walk, applied recursively, recovers exactly the tree laid out if and only if every length in it fits 16 bits |
| NetlinkWireGuard.NetlinkBuffer.AppendRaw | src/network/netlink_wireguard.cpp:28-32 | bytes are appended |
| NetlinkWireGuard.NetlinkBuffer.PutAttr | src/network/netlink_wireguard.cpp:39-54 | the attribute's layout is appended; alignment is kept for every length |
| NetlinkWireGuard.NetlinkBuffer.StartNested | src/network/netlink_wireguard.cpp:77-84 | a flagged header with length 0 is appended, and where it is |
| NetlinkWireGuard.NetlinkBuffer.EndNested | src/network/netlink_wireguard.cpp:86-94 | the length is written into that header; an aligned buffer needs no padding |
| NetlinkWireGuard.NestedLayout | src/network/netlink_wireguard.cpp:77-94 | starting, filling and ending leaves the nested attribute's layout |
| NetlinkWireGuard.PutAllowedIps | src/network/netlink_wireguard.cpp:498-512 | the nest of the IPv4 entries, all others skipped |
| NetlinkWireGuard.PutKeptPeer | src/network/netlink_wireguard.cpp:475-513 | the optional attributes of a peer that is kept |
| NetlinkWireGuard.PutPeer | src/network/netlink_wireguard.cpp:469-515 | the nest of one peer |
| NetlinkWireGuard.PutPeers | src/network/netlink_wireguard.cpp:462-518 | the nest of the peers whose key has 32 bytes |
| NetlinkWireGuard.SetWireGuardDevice | src/network/netlink_wireguard.cpp:423-520 | the request is the headers with the total length, followed by the layout of the device's attributes |
| NetlinkWireGuard.RequestRecoveredIffFit | src/network/netlink_wireguard.cpp:423-520 | for every device, the walk recovers its attributes if and only if every length fits |
| NetlinkWireGuard.TypicalPeerSize | src/network/netlink_wireguard.cpp:466-515 | a peer with keepalive, IPv4 endpoint and one allowed address takes 108 bytes |
| NetlinkWireGuard.TypicalRequestFits | src/network/netlink_wireguard.cpp:462-518 | with such peers the request is recovered exactly up to 606 of them |
| NetlinkWireGuard.GetWireGuardDevice | src/network/netlink_wireguard.cpp:593-615 | the pointer loop reads the status that the walk defines |
| NetlinkWireGuard.StatusOfLayouts | src/network/netlink_wireguard.cpp:597-612 | the status of a laid-out tree comes from its top level alone |
| NetlinkWireGuard.PortReadBack | src/network/netlink_wireguard.cpp:455-608 | the port that was configured is the port that is read |
| NetlinkDevice.EndpointIsRead | src/network/netlink_wireguard.cpp:484-490 | a reader of struct sockaddr_in finds family 2, the port in network order and the address |
| NetlinkDevice.PeerIsRead | src/network/netlink_wireguard.cpp:469-515 | a reader of peers finds key, removal or replacement flag, keepalive, endpoint and allowed IPv4 addresses with masks |
| NetlinkDevice.DeviceIsRead | src/network/netlink_wireguard.cpp:449-518 | a reader of devices finds key, port and exactly the peers with a 32-byte key, and the name if and only if it holds no null |
| NetlinkDevice.MessageDescribesDevice | src/network/netlink_wireguard.cpp:423-520 | a reader with its own attribute numbers finds the device in the message that was built for it, and its headers |
| NetlinkDevice.StatusIsLast | src/network/netlink_wireguard.cpp:597-612 | of all attributes of a response the last key and the last port that are long enough are the status |
| ReplayCache.ReplayProtectionCache.IsTimestampValid | src/crypto/pairing_session.cpp:14-18 | positive, and at most 300 seconds from now |
| ReplayCache.ReplayProtectionCache.PruneExpired | src/crypto/pairing_session.cpp:59-68 | exactly the entries within the window stay |
| ReplayCache.ReplayProtectionCache.IsReplayed | src/crypto/pairing_session.cpp:20-47 | prunes, then refuses an invalid time, a known id or a known hash, and nothing else |
| ReplayCache.ReplayProtectionCache.RegisterSession | src/crypto/pairing_session.cpp:49-57 | the entry is stored unless id or hash is empty |
| ReplayCache.GuardedIsReplayed | src/crypto/pairing_session.cpp:20-47 | a guarded session's id or hash with its timestamp is refused at any later time |
| ReplayCache.RegisterKeepsGuardIff | src/crypto/pairing_session.cpp:49-57 | when a registration leaves the entry of an earlier session in place |
| ReplayCache.RefusedIffCovered | src/crypto/pairing_session.cpp:20-68 | replays are refused for good if and only if the timestamp has expired or id and transcript are held by entries that are not older |
| ReplayCache.RegisterKeepsRefusalIff | src/crypto/pairing_session.cpp:49-57 | when a registration leaves every later replay of an earlier session refused |
| Pairing.ActKeepsGuard | src/crypto/pairing_session.cpp:14-68 | no action ends the guard of an admitted message before its timestamp has expired |
| Pairing.ReplaySafety | src/crypto/pairing_session.cpp:234-453 | in every run, no request and no response with timestamp and id, or timestamp and transcript, of an admitted message is admitted again |
| Pairing.CheckProofIff | src/crypto/pairing_session.cpp:263-295 | a message passes exactly if its proof is the HMAC of its transcript under the derived key and the sizes are right |
| Pairing.PairedOnlyByProof | src/crypto/pairing_session.cpp:234-453 | in any state, an action leaves a session paired only if it is a message with a right proof, and the result is that message's |
| Pairing.AnswerPairsIff | src/crypto/pairing_session.cpp:363-453 | exactly which responses pair a session |
| Pairing.HonestRunPairs | src/crypto/pairing_session.cpp:164-453 | an undisturbed exchange pairs both sides, with equal secrets and crossed ids, keys and addresses |
| Pairing.WrongProofFails | src/crypto/pairing_session.cpp:284-295 | a responder for whom the proof is wrong fails, without a result or a cache entry |
| Pairing.OtherPasswordFails | src/crypto/pairing_session.cpp:273-295 | a responder with another password admits the request if and only if its key gives the same HMAC; otherwise it fails |
| Pairing.ResponseIdEndsGuard | src/crypto/pairing_session.cpp:254-349 | a run after which an admitted request is admitted again |
| PairingProof.TranscriptFields | src/protocol/models.cpp:378-383 | each field is told apart by the transcript if and only if its encoding tells it apart |
| PairingProof.TranscriptPairs | src/protocol/models.cpp:378-383 | names, or timestamp and key, are told apart if and only if their joint encodings differ |
| PairingProof.AlteredRequestIff | src/crypto/pairing_session.cpp:234-298 | an honest request altered in any field but receiver, salt and proof is admitted if and only if the HMACs of both transcripts agree; otherwise the responder fails and remembers nothing |
| PairingProof.ChangedTimestampIff | src/crypto/pairing_session.cpp:254-298 | a changed timestamp is admitted if and only if the HMACs of two different transcripts are equal |
| PairingProof.AlteredResponseIff | src/crypto/pairing_session.cpp:363-453 | an honest response with another timestamp, key or address pairs if and only if the HMACs agree |
| PairingProof.RequestGoesOutIff | src/crypto/pairing_session.cpp:164-232 | exactly when a request goes out and with which fields, and that the pairing has failed otherwise |
| PairingProof.RequestPairsIff | src/crypto/pairing_session.cpp:234-356 | exactly which requests pair a responder, and that it answers exactly those and with which fields |
| PairingProof.RequestFailsFor | src/crypto/pairing_session.cpp:241-298 | exactly for which reason a request is refused, and that the session fails with it |
| PairingProof.ResponseFailsFor | src/crypto/pairing_session.cpp:363-432 | the same for a response |
| PairingProof.AwaitsOnlyAfterInitiate | src/crypto/pairing_session.cpp:144-453 | a session awaits a response only directly after it has sent its request |
| PairingProof.AnswerFollowsRequest | src/crypto/pairing_session.cpp:144-453 | a response pairs only directly after the request that it answers, with its id, its peer and its key |
| PairingProof.CancelForgets | src/crypto/pairing_session.cpp:144-162 | after a cancel or a reset only the cache is left, and no response pairs |
| PairingProof.RunKeepsNamed | src/crypto/pairing_session.cpp:49-57 | in every run the cache holds no entry without an id or a transcript |
| PairingSession.PairingSession.constructor | src/crypto/pairing_session.cpp:78-83 | a new session is idle with an empty cache |
| PairingSession.PairingSession.Reset | src/crypto/pairing_session.cpp:145-154 | everything but the replay cache is cleared |
| PairingSession.PairingSession.CancelPairing | src/crypto/pairing_session.cpp:156-162 | a running pairing is reset, an idle or failed one is left alone |
| PairingSession.PairingSession.Initiate | src/crypto/pairing_session.cpp:164-232 | new state and request, for every failure on the way |
| PairingSession.PairingSession.VerifyProof | src/crypto/pairing_session.cpp:263-295 | decoding, key derivation and proof check with their errors |
| PairingSession.PairingSession.OnIncomingRequest | src/crypto/pairing_session.cpp:234-361 | new state, cache and response, for every failure on the way |
| PairingSession.PairingSession.Answer | src/crypto/pairing_session.cpp:300-360 | the part behind the proof check |
| PairingSession.PairingSession.OnIncomingResponse | src/crypto/pairing_session.cpp:363-453 | new state, cache and result, for every failure on the way |
| Chat.ActKeepsTimers | src/protocol/chat_controller.cpp:64-339 | every event keeps timers and awaiting messages in step, and never unsettles a message |
| Chat.TimersExact | src/protocol/chat_controller.cpp:99-339 | in every run a message has a live timer exactly while sent or pending, never returns there, and never goes from delivered or read to failed |
| Chat.TypingAlternates | src/protocol/chat_controller.cpp:162-398 | in every run each peer's typing signals alternate, with a live timer exactly while on; the same for the frames sent |
| Chat.DuplicatesAreSpaced | src/protocol/chat_controller.cpp:232-307 | in every run two signals for one message id are more than 300 seconds apart |
| Chat.EveryRun | src/protocol/chat_controller.cpp:8-398 | the three results for every run of a new controller |
| ChatSafety.SenderActs | src/protocol/chat_controller.cpp:64-339 | an event at the sender keeps: delivered means signalled at the other side, and read means that or an early receipt |
| ChatSafety.ReceiverActs | src/protocol/chat_controller.cpp:244-307 | an event at the receiver keeps: only sent messages are signalled, and only signalled ones acknowledged, early receipts aside |
| ChatSafety.DeliveredWasEmitted | src/protocol/chat_controller.cpp:64-339 | in every run of two controllers, with receipts at any time: delivered means that the other side has signalled that very message, read means that or an early receipt; each was acknowledged with that very status |
| ChatSafety.ReceiptIff | src/protocol/chat_controller.cpp:139-160 | a read receipt is for a signalled message if and only if the id was signalled before it was sent |
| ChatSafety.EarlyReceipt | src/protocol/chat_controller.cpp:139-160 | a run in which a message is tracked as read that was never signalled |
| ChatDelivery.ArrivalOutcome | src/protocol/chat_controller.cpp:244-307 | a message is signalled if and only if it is acceptable and was not seen for 300 seconds, and acknowledged whenever it is acceptable |
| ChatDelivery.SendOutcome | src/protocol/chat_controller.cpp:64-137 | a message goes out, with a timer, if and only if it has a recipient and fits; it is pending exactly without a connection |
| ChatDelivery.AnsweredIsDelivered | src/protocol/chat_controller.cpp:64-339 | a message that was sent and has arrived is tracked as delivered once the answer is back, whatever happened in between, and its timer is gone |
| ChatDelivery.UnansweredFails | src/protocol/chat_controller.cpp:104-116 | one that is not answered in time fails, and that is signalled |
| ChatDelivery.IndicatorOutcome | src/protocol/chat_controller.cpp:341-380 | an indicator goes on or off as the frame says, and is signalled if and only if that is a change |
| ChatDelivery.IndicatorFollows | src/protocol/chat_controller.cpp:162-380 | however one types, stops or pauses: with all frames delivered, the peer's indicator is on if and only if one is typing, which is what one last said |
| ChatController.ChatController.constructor | src/protocol/chat_controller.cpp:8-25 | a new controller tracks nothing |
| ChatController.ChatController.OnSendMessage | src/protocol/chat_controller.cpp:64-137 | new maps, timer, frame and signal, or an error for content or recipient |
| ChatController.ChatController.OnAckTimeout | src/protocol/chat_controller.cpp:104-116 | an awaiting message fails, any other is left alone, the timer is gone |
| ChatController.ChatController.OnSendReadReceipt | src/protocol/chat_controller.cpp:139-160 | one acknowledgement with status read |
| ChatController.ChatController.SendTypingNotification | src/protocol/chat_controller.cpp:162-210 | a frame only when the own state changes, and the timer with it |
| ChatController.ChatController.OnLocalTypingTimeout | src/protocol/chat_controller.cpp:14-18 | the own indicator goes off |
| ChatController.ChatController.CleanExpiredDuplicateCache | src/protocol/chat_controller.cpp:232-242 | exactly the entries of the last 300 seconds stay |
| ChatController.ChatController.HandleInboundChatMessage | src/protocol/chat_controller.cpp:244-307 | a new message is signalled and acknowledged, a duplicate only acknowledged |
| ChatController.ChatController.HandleInboundMessageAck | src/protocol/chat_controller.cpp:309-339 | the tracked message becomes read or delivered and its timer is gone |
| ChatController.ChatController.HandleInboundTypingIndicator | src/protocol/chat_controller.cpp:341-380 | the peer's indicator and timer go on or off together |
| ChatController.ChatController.OnFrameReceived | src/protocol/chat_controller.cpp:216-230 | every frame reaches its handler |
| ChatController.ChatController.OnSocketDisconnected | src/protocol/chat_controller.cpp:382-398 | every indicator that was on is signalled off once |

## Left out

- JSON, UTF-8 and base64 conversion, regular expressions and address parsing: steps exchange decoded records or bytes.
- User interface, configuration storage, logging, error texts and signals that only inform the user; the texts of decoding errors are an enumeration.
- Sockets, TLS, the kernel and the WireGuard service that drives it; `linux/wireguard.h` and `linux/netlink.h` are not part of this model, their constants are written out.
- SHA-256, Argon2id, HMAC and X25519 themselves.
- The broker, keepalive pings and reconnect backoff: easy bounds, or dependent on the broker.
- Starting and stopping the TCP server, its connection limit and subnet checks.
- Secure cleansing of keys.
- StreamDecoder.ProcessStreamBuffer: takes and returns the buffer as a value where the source edits the caller's in place; its payload limit is one for which the packet size fits an int, as at its only caller; beyond it the source's sum overflows and its result is undefined.
- P2PSocket.P2PSocket.SendFrame: what the operating system makes of a write to an accepted connection is not looked at in the source; the model takes it as written whole.
- P2PSocket.P2PSocket.DisconnectFromPeer: the operating system's own closing handshake, and so the `disconnected` signal that may follow within the call, is a separate step.
- Crc32.CalculateCrc32: a register is a sequence of 32 bits instead of a machine word.
- FileChunk.ChunkRoundTrip: ids are ASCII, and data is what an int can count together with the header.
- FileTransferController.Controller.HandleInboundFileChunk: writes to an open file succeed in full, as the source assumes; an open file is identified by its path, so after another transfer has been delivered to that path a write goes to the new file, where the source writes to the one that was replaced.
- FileTransferController.Controller.SendNext: an open source file keeps the content that it had when it was opened.
- TransferSafety.TransferSafety: a source file is unchanged between its hash and the start of streaming, and has at most 2^31 - 1 chunks, what the session's counter can hold.
- TransferCompletion.TransferCompletes: one transfer between two controllers; the other sessions are covered by the safety results only.
- TransferChannel.FileCrossesChannel: carries the streaming phase; offer and acceptance are handed over directly.
- TransferDisk.DiskAgreesWithSessions: no other program touches the directory; transfer ids contain no slash.
- MqttSignaling.MqttSignalingClient.OnSocketDisconnected: aborting an open socket signals `disconnected` within the call, as Qt documents.
- MqttSignaling.MqttSignalingClient.HandlePublish: what a payload means is a parameter that tells discovery requests of other devices; presence and leave notices go to the user interface.
- NetlinkWireGuard.GetWireGuardDevice: walks the attributes of a complete response; the kernel's error reply and a response longer than the receive buffer are not modelled.
- NetlinkWireGuard.SetWireGuardDevice: the wrap-around of the 32-bit total length is modelled, the reply is not.
- ChatController.ChatController.OnSendMessage: a connection that is opened on the way, and what its old socket signals then, are separate steps.
- Claims that the code does not make are not made here: a cancel may follow a completed transfer, a late acknowledgement may turn read into delivered, and an empty file completes without a hash check.
