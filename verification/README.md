# Browser SSH over WebAssembly: a verified model

The library runs an SSH client, compiled from Go to WebAssembly, inside a browser page. Bytes reach
it from a transport on the JavaScript side; one of the transports speaks the AWS IoT secure
tunneling protocol over a WebSocket. This project models the parts of it that carry state or
arithmetic, and proves what they promise.

* **Secure tunnel** (`Wire`, `Codec`, `CodecLaws`, `WireFormat`, `Framing`, `TunnelMessages`, `Tunnel`,
  `TunnelRuns`, `EndToEnd`, `TunnelEffects`, `TunnelPeers`, with `Options` and `Blocks` below them). The
  three generated message codecs; the 16-bit framing; the transport as a class, method by method; every
  run of its events; and two transports joined by a network that cuts the byte stream anywhere, from
  the handshake to disconnecting. A listener may call back into the transport between two frames, so
  runs interleave single frames, not chunks.
* **Go transport** (`JSTransport`, `TransportRuns`, `Injections`, `ReceivePipeline`). The channel of
  100 blocks and the leftover buffer behind `Read`; every interleaving of one reader with injectors
  and closers; what a full channel loses; and the whole receive path from the far side's `send` to
  the bytes the SSH layer reads.
* **Go/JavaScript glue** (`LinearMemory`, `ValueTable`, `ValueTableRuns`, `ArgvLayout`). References
  as NaN-boxed slot ids, reference counts, id recycling, split 64-bit integers, and the layout of
  arguments and environment in memory.
* **Uploads** (`Base64`, `RemoteFiles`, `UploadRuns`, with `ObjectForm`, which shares the base64).
  `put` through base64 to the temporary file and rename of `PutFile`, alone and with any number of
  uploads interleaved request by request. A failed request may or may not have taken effect.
* **SSH client** (`SSHClient`, `ClientRuns`). `Send`, `StartShell` and `Disconnect`, cut at every point
  where another goroutine may run, under a reader-writer lock.

Code that updates fields or buffers is a class or a method with loops, tied by its postcondition to
a function of the old state; the theorems are about those functions and about runs built from them.
`protobufjs/minimal` is modelled from the Protocol Buffers Encoding specification (sections
"Base 128 Varints", "Message Structure", "Length-Delimited Records" and "Last One Wins"), renaming
from section 6.5 of draft-ietf-secsh-filexfer-02, base64 from section 4 of RFC 4648, and message
events from the WebSocket rule that they come only after the socket has opened.

Some results where the code falls short of, or needs a condition for, what it is meant to do:

* A DATA frame's 16-bit length can wrap exactly when the service id is too long: over 1012 bytes (V2)
  or 1010 bytes (V3) in a source, whose stream id is always 1, and over 1003 or 1001 bytes in a
  destination, which takes any stream id from its peer (`FrameBound`, `LongestFrame`,
  `FramesFitExactly`, with the run that wraps in `WrappingRun`).
* A source whose peer is a destination without a service id never gets ready, since nothing is
  announced to it (`HandshakeCompletes`).
* An upload can return an error although its data is in place, exactly when the server performed a
  rename of it that was reported as failed (`ErrorAfterInstall`, `OutcomeIsHonest`); otherwise an error
  means that none of its requests changed anything but its temporary file (`ErrorChangesNothing`), as it
  always is when reported failures have no effect (`RealFailuresLoseNoReply`).
* `setInt64` followed by `getInt64` is off by 2^32 for negative fractions just below a multiple of
  2^32, and truncates every other value (`FractionRoundTrip`).
* Minus zero comes back from the value table as zero (`StoreThenLoad`).
* `fromObject` of `toObject` loses the absence of properties when defaults were asked for, and only
  then (`ObjectRoundTripExact`, `AbsenceIsLost`).
* A block that the full channel refuses is lost: `lib/transport.ts:214-217` ignores the rejected
  promise. What is read afterwards skips it as soon as a later block is accepted, and only then
  (`PlacesKeptExactly`, `AcceptedAreFirstDelivered`, with the run that skips a block in
  `RefusalSkipsBlock`); refusals after `Close` do no harm.
* `Close` cuts the reader off from the leftover and the queued blocks (`CloseLosesRest`).

## Model

| member | source | states |
|---|---|---|
| Wire.Int32RoundTrip | lib/aws-iot-tunnel/protobuf-messages.js:129-132 | every int32 is read back, negatives through a ten-byte varint of which the low 32 bits are kept |
| Wire.SkipExtend | lib/aws-iot-tunnel/protobuf-messages.js:189-191 | skipping an unknown field, nested groups included, does not depend on what follows it |
| WireFormat.VarintBytes | lib/aws-iot-tunnel/protobuf-messages.js:129-132 | a varint's bytes hold the number seven bits each, lowest first, with the high bit set on all but the last |
| WireFormat.Int32Bytes | lib/aws-iot-tunnel/protobuf-messages.js:129-132 | a negative int32 is written as its 64-bit two's complement number |
| WireFormat.MessageBytes | lib/aws-iot-tunnel/protobuf-messages.js:893-912 | the exact bytes of every message in every version: the .proto's tags in order, the ids from V2 on, the connection in V3 |
| WireFormat.SkipsExactly | lib/aws-iot-tunnel/protobuf-messages.js:189-191 | skipping by wire type takes exactly one value, for well-formed values of every type, groups nested to any depth included |
| WireFormat.NothingToSkip | lib/aws-iot-tunnel/protobuf-messages.js:189-191 | wire types 4, 6 and 7 are errors |
| WireFormat.TooLongVarint | lib/aws-iot-tunnel/protobuf-messages.js:164-195 | a varint that goes on after ten bytes is an error |
| WireFormat.UnknownSkipped | lib/aws-iot-tunnel/protobuf-messages.js:164-195 | a field the version does not know leaves the message as it is, and decoding goes on after it |
| WireFormat.KnownByNumber | lib/aws-iot-tunnel/protobuf-messages.js:164-195 | a known field is read by its number alone, whatever the wire type of its tag |
| Codec.EncodeMessage | lib/aws-iot-tunnel/protobuf-messages.js:893-912 | the writer's steps and its loop over service ids produce the records of the present properties, in field order, that the version knows |
| Codec.DecodeMessage | lib/aws-iot-tunnel/protobuf-messages.js:938-983 | the reader loop computes the record-by-record decoding, or fails where it fails |
| CodecLaws.TagLayout | lib/aws-iot-tunnel/protocol-v3-message.proto:7-14 | each record starts with the tag of its field number and wire type |
| CodecLaws.CrossVersion | lib/aws-iot-tunnel/protobuf-messages.js:164-195 | any version's decoder returns, from any version's encoding, exactly the properties both know, presence included |
| CodecLaws.CodecRoundTrip | lib/aws-iot-tunnel/protobuf-messages.js:893-983 | decoding an encoding of a message of the same version returns that message |
| CodecLaws.EncodeInjective | lib/aws-iot-tunnel/protobuf-messages.js:476-493 | two messages have the same encoding exactly when they agree on the version's properties |
| CodecLaws.DecodeMerges | lib/aws-iot-tunnel/protobuf-messages.js:519-560 | decoding a concatenation is the merge of the two decodings, last one winning and service ids appended, for all byte strings |
| Framing.FrameReadBack | lib/aws-iot-tunnel.ts:326-330 | a frame is read back intact if and only if its length is at most 65535 |
| Framing.FrameBytes | lib/aws-iot-tunnel.ts:326-330 | the two length bytes are the length modulo 65536, high byte first |
| Framing.FramesDecompose | lib/aws-iot-tunnel.ts:358-372 | every byte stream is its complete frames, framed, and a tail without a complete frame |
| Framing.Incremental | lib/aws-iot-tunnel.ts:351-392 | parsing may stop after any bytes and go on from the unfinished tail |
| Framing.TakenIsPrefix | lib/aws-iot-tunnel.ts:351-372 | frames taken from part of a framed stream are a prefix of the frames it was made of, and all of them at its end |
| TunnelMessages.CutConserves | lib/aws-iot-tunnel.ts:280-301 | cutting data into messages loses nothing, and every piece is a DATA message of 1 to 64512 bytes |
| TunnelEffects.DataBytes | lib/aws-iot-tunnel.ts:289-306 | the exact bytes of a DATA message in each version: type 1, stream id, payload, the service id from V2 on if it is not empty, connection 1 in V3 |
| TunnelEffects.StreamStartBytes | lib/aws-iot-tunnel.ts:124-133 | the exact bytes of STREAM_START: type 2, stream id, the service id as configured |
| TunnelEffects.StreamResetBytes | lib/aws-iot-tunnel.ts:182-184 | the exact bytes of STREAM_RESET: type 3 and the stream id |
| TunnelEffects.ServiceIdsBytes | lib/aws-iot-tunnel.ts:113-121 | the exact bytes of SERVICE_IDS: type 5 and the one service id |
| TunnelEffects.TypeNumbers | lib/aws-iot-tunnel.ts:19-28 | what counts as data, as a reset and as the handshake in the other results, by message type number |
| TunnelMessages.FrameBound | lib/aws-iot-tunnel.ts:280-330 | every DATA frame, for all chunks and all stream ids the mode can hold, fits the length prefix if and only if the service id is within the limit of the version and the mode |
| TunnelMessages.LongestFrame | lib/aws-iot-tunnel.ts:280-330 | at the limit a full chunk with the widest stream id of the mode takes exactly 65535 bytes, above it more |
| Tunnel.SecureTunnelTransport.OnOpen | lib/aws-iot-tunnel.ts:107-140 | the socket is open and the mode's opening message, if any, is all that went out |
| Tunnel.SecureTunnelTransport.DisconnectTunnel | lib/aws-iot-tunnel.ts:179-191 | STREAM_RESET goes out on an open socket, the socket is given up and the flags are cleared |
| Tunnel.SecureTunnelTransport.SendBytes | lib/aws-iot-tunnel.ts:196-210 | data is queued unless the transport is connected, holds a socket and is ready; then its messages go out |
| Tunnel.SecureTunnelTransport.ProcessQueuedMessages | lib/aws-iot-tunnel.ts:215-223 | the queue is emptied and all its data goes out in order, or is dropped on a socket that is not open |
| Tunnel.SecureTunnelTransport.SendDataFrame | lib/aws-iot-tunnel.ts:280-315 | the chunk loop emits exactly the messages the data is cut into |
| Tunnel.SecureTunnelTransport.HandleIncomingData | lib/aws-iot-tunnel.ts:351-392 | the loop takes, decodes and handles every complete frame; a frame that does not decode only counts an error |
| Tunnel.SecureTunnelTransport.HandleMessage | lib/aws-iot-tunnel.ts:397-467 | what each message type does to the fields, the wire and the listeners, absent properties reading as defaults |
| TunnelRuns.RunsKeepInv | lib/aws-iot-tunnel.ts:107-223 | every reachable state satisfies the handshake, ordering, wire and reassembly invariants together |
| EndToEnd.HandshakeBeforeData | lib/aws-iot-tunnel.ts:107-140 | in every run no DATA goes out before SERVICE_IDS (source) or STREAM_START (destination) was handled, and nothing before the opening message |
| TunnelEffects.SentShape | lib/aws-iot-tunnel.ts:107-140 | in every run the messages sent are the mode's opening message with its service id, then DATA of 1 to 64512 bytes each, then at most one reset; a source uses stream 1 throughout |
| TunnelEffects.SendEffect | lib/aws-iot-tunnel.ts:196-210 | data is queued and nothing written unless the transport is connected, holds a socket and is ready; then, on an open socket, exactly its DATA messages with the current stream id go out |
| TunnelEffects.DataEffect | lib/aws-iot-tunnel.ts:408-413 | a message of type 1 appends exactly its payload to what the listener got, and does nothing else |
| TunnelEffects.StreamStartEffect | lib/aws-iot-tunnel.ts:415-430 | type 2 makes a destination take the stream id, get ready and send its whole queue on it; a source ignores it |
| TunnelEffects.StreamResetEffect | lib/aws-iot-tunnel.ts:432-438 | type 3 runs the close listener and does nothing else |
| TunnelEffects.SessionResetEffect | lib/aws-iot-tunnel.ts:440-444 | type 4 gives up the socket and clears both flags; on an open socket exactly one message of type 3 with the transport's stream id goes out before |
| TunnelEffects.ServiceIdsEffect | lib/aws-iot-tunnel.ts:446-455 | type 5 makes a source ready and sends its whole queue; a destination ignores it |
| TunnelEffects.OtherEffect | lib/aws-iot-tunnel.ts:457-467 | any other type, and an absent one, is ignored |
| TunnelEffects.SessionResetEnds | lib/aws-iot-tunnel.ts:440-444 | after a message of type 4 is handled in a run nothing is written and the transport is never connected again |
| TunnelEffects.DisconnectEnds | lib/aws-iot-tunnel.ts:179-191 | `disconnect` in any phase gives up the socket, and once `connect` was called nothing is written and nothing is connected after it |
| TunnelEffects.EndedForGood | lib/aws-iot-tunnel.ts:158-170 | from the close event on nothing is written and the transport is never connected again |
| TunnelEffects.CloseEventEffect | lib/aws-iot-tunnel.ts:158-170 | the close event clears both flags and runs the close listener once |
| EndToEnd.AcceptedData | lib/aws-iot-tunnel.ts:196-223 | the wire's payloads followed by the queue are all accepted data until the socket leaves OPEN, and a prefix afterwards; a ready transport has an empty queue |
| EndToEnd.WireFrozen | lib/aws-iot-tunnel.ts:320-324 | once the socket has left OPEN nothing is written again, in any continuation of the run |
| EndToEnd.FramesFitExactly | lib/aws-iot-tunnel.ts:280-330 | no run of a transport ever wraps a frame length if and only if its service id is within the limit |
| EndToEnd.WrappingRun | lib/aws-iot-tunnel.ts:280-330 | with a service id over the limit, a run from connecting through the handshake whose DATA frame wraps |
| EndToEnd.MessagesArrive | lib/aws-iot-tunnel.ts:351-413 | however the bytes are re-split, the receiver handles exactly the sender's first messages, one per frame without a decoding error, as far as its version knows them |
| EndToEnd.TakeFramesIsRun | lib/aws-iot-tunnel.ts:359-391 | handling a chunk is a run of single-frame steps that ends with no complete frame buffered |
| EndToEnd.ReassemblyIsParsing | lib/aws-iot-tunnel.ts:351-392 | after each chunk of any run the frames handled are exactly the complete frames of everything received and the buffer is the unfinished tail |
| TunnelPeers.HandshakeCompletes | lib/aws-iot-tunnel.ts:107-140 | in all runs of a joined source and destination, an open destination is ready, with the source's stream id and an empty queue, if and only if it has handled a frame; an open source if and only if it has and the destination has a service id |
| TunnelPeers.EverythingCanArrive | lib/aws-iot-tunnel.ts:196-223 | any two runs with open sockets can go on to where both are ready with empty queues and each listener has got all the data the other side accepted |
| TunnelPeers.DisconnectReachesPeer | lib/aws-iot-tunnel.ts:179-191 | disconnecting after any run puts one reset on the wire as the last message, and over all runs of the peer the close listener runs once for it, when the last frame is handled, and else only for close events |
| EndToEnd.StreamEndToEnd | lib/aws-iot-tunnel.ts:196-413 | for all runs of two transports and every re-splitting, unless a frame length wrapped, the payloads delivered are a prefix of the data sent, and all of it when everything was delivered and the sender is ready on an open socket |
| JSTransport.ReadTakesNext | pkg/sshclient/transport.go:83-101 | past the check of `closed` a read returns as much of the leftover, or else of the next block, as the slice holds, and keeps the rest; it ends and waits under exactly the stated conditions and changes nothing then |
| JSTransport.PushKeeps | pkg/sshclient/transport.go:148-153 | a block is accepted exactly when fewer than 100 are queued, and conservation is kept |
| JSTransport.Transport.Read | pkg/sshclient/transport.go:75-102 | the slice receives exactly the bytes returned, which are as much of the leftover or the next block as it holds; the rest of the slice is unchanged and the rest of the block kept |
| JSTransport.Transport.InjectData | pkg/sshclient/transport.go:140-154 | succeeds exactly when the transport is open and the channel has room |
| JSTransport.Transport.Close | pkg/sshclient/transport.go:123-137 | closes the channel and calls back on the first call only |
| TransportRuns.TransportConservation | pkg/sshclient/transport.go:75-154 | in every interleaving bytes read, leftover and queued blocks are the accepted bytes in order, the accepted blocks some of those offered in order, at most 100 blocks queue, and closing happens once |
| TransportRuns.CloseLosesRest | pkg/sshclient/transport.go:75-82 | from closing on with no read under way nothing is ever read again, and what is missed is exactly the leftover and the queued blocks |
| TransportRuns.NothingAcceptedAfterClose | pkg/sshclient/transport.go:140-146 | once closed with no injection under way every injection is refused |
| TransportRuns.ReadIsRun | pkg/sshclient/transport.go:75-102 | `Read` alone is one of these runs, with the same state and result |
| TransportRuns.InjectIsRun | pkg/sshclient/transport.go:140-154 | so is `InjectData` |
| TransportRuns.CloseIsRun | pkg/sshclient/transport.go:123-137 | and `Close` |
| Injections.PlacesKeptExactly | pkg/sshclient/transport.go:148-153 | with one injection at a time, every accepted byte keeps its place in the stream offered if and only if no non-empty block was accepted after the full channel refused one; then the bytes read are a prefix of that stream |
| Injections.AcceptedAreFirstExactly | pkg/sshclient/transport.go:148-153 | for distinct non-empty blocks, the accepted ones are the first ones offered under exactly that condition |
| Injections.RefusalSkipsBlock | pkg/sshclient/transport.go:148-153 | a run of 102 one-byte blocks after which the bytes read are no prefix of those offered |
| ReceivePipeline.BytesReadArePrefix | lib/transport.ts:214-217 | unless a frame length wrapped or a block was accepted after the full channel refused one, the bytes the SSH layer has read are a prefix of the data the far side sent |
| ReceivePipeline.AcceptedAreFirstDelivered | lib/transport.ts:214-217 | for distinct non-empty payloads, the blocks accepted are the first ones delivered if and only if none was accepted after a full refusal |
| LinearMemory.Int64RoundTrip | public/wasm_exec.js:119-132 | every integer up to 2^53 in magnitude comes back from its two words, negatives included |
| LinearMemory.FractionRoundTrip | public/wasm_exec.js:119-132 | a fractional value comes back truncated if and only if it is not just below a multiple of 2^32 that is not positive |
| LinearMemory.WordBytes | public/wasm_exec.js:119-132 | two words in memory are eight bytes, lowest first, the low word at the address |
| LinearMemory.SplitIsModular | public/wasm_exec.js:119-122 | an integer up to 2^53 is split as its 64-bit two's complement number |
| LinearMemory.JoinIsSigned | public/wasm_exec.js:128-132 | two words are read as the signed number of their 64 bits |
| ValueTable.Go.SetInt64 | public/wasm_exec.js:119-122 | the eight bytes hold the integer in two's complement, lowest byte first, and no other byte changes |
| ValueTable.Go.GetInt64 | public/wasm_exec.js:128-132 | the eight bytes are read as such a number |
| ValueTable.NumbersByExponent | public/wasm_exec.js:134-141 | by sign, exponent and fraction, exactly which words are NaNs and which are zeros |
| ValueTable.EveryWordIsDouble | public/wasm_exec.js:134-141 | every word has a sign, an exponent and a fraction |
| ValueTable.Go.StoreValue | public/wasm_exec.js:147-195 | the high word is 0x7FF80000 plus 1 for objects, 2 for strings, 3 for symbols, 4 for functions and 0 for other slot values, the low word the slot id; undefined, NaN and other numbers are written as they are; the rest of memory is unchanged |
| ValueTable.Go.LoadValue | public/wasm_exec.js:134-145 | the eight bytes are read as undefined, a number or a slot |
| ValueTable.Go.FinalizeRef | public/wasm_exec.js:313-323 | the count drops, and at zero the slot is cleared, unmapped and pooled |
| ValueTableRuns.TableSafety | public/wasm_exec.js:165-175 | over every run a slot from 7 up is pooled exactly when unreferenced, never twice, its count is stores minus finalizes, and ids and values are inverse on the others |
| ValueTableRuns.HeldReferencesLoad | public/wasm_exec.js:134-145 | over every run a reference stored more often than finalized loads exactly the value stored |
| ValueTableRuns.StoreThenLoad | public/wasm_exec.js:134-195 | a stored value loads as itself if and only if it is not minus zero |
| ValueTableRuns.SlotHoldsValue | public/wasm_exec.js:165-194 | over every run the low word of a slot reference names the slot that holds the value |
| ValueTableRuns.PresetReferences | public/wasm_exec.js:485-502 | over every run zero, null, the booleans, the global object and the Go object have the references 1 to 6 |
| ValueTableRuns.LoadByExponent | public/wasm_exec.js:134-145 | zeros load as undefined, NaNs as the slot of their low word, every other word, infinities included, as itself |
| ValueTableRuns.FreedIsReused | public/wasm_exec.js:165-168 | the slot freed last is the next one taken |
| ValueTableRuns.HighWaterMark | public/wasm_exec.js:165-175 | the table has its seven presets and exactly as many more slots as values were ever held at once |
| ArgvLayout.LayOut | public/wasm_exec.js:507-546 | the numbers in the pointer table are the addresses of every argument and environment string, NUL-terminated, with a zero after each list; it succeeds exactly when the layout fits the memory and ends below 12288 |
| ArgvLayout.EndGrows | public/wasm_exec.js:509-518 | the strings' places do not overlap |
| ArgvLayout.EndIsNext | public/wasm_exec.js:507-518 | the first string lies at 4096 and each next one at the first multiple of eight after the NUL before it |
| Base64.Base64RoundTrip | sftp_bindings.go:121-124 | decoding inverts encoding for byte strings of every length |
| Base64.EncodedGroups | lib/sftp.ts:85 | each three bytes are the 24-bit number of four digits, the missing ones zero and the silent digits padding |
| Base64.Alphabet | lib/sftp.ts:85 | the digits are those of Table 1 of RFC 4648 |
| Base64.DecodesOnlyGroups | sftp_bindings.go:121-124 | only whole groups of digits decode, with padding at most in the last two places |
| Base64.ToBase64 | lib/sftp.ts:75-86 | the 32 KiB chunk loop yields the base64 of the whole input, which decodes to it |
| ObjectForm.ToObject | lib/aws-iot-tunnel/protobuf-messages.js:1135-1173 | fills the object property by property for every choice of options |
| ObjectForm.ObjectShape | lib/aws-iot-tunnel/protobuf-messages.js:1135-1173 | exactly which properties the object has under which options, the payload as base64 text of the bytes or as the bytes, the type by name or number |
| ObjectForm.EnumNames | lib/aws-iot-tunnel/protobuf-messages.js:1155-1157 | the names of the types in each version's .proto, numbers where it has none |
| ObjectForm.FromObject | lib/aws-iot-tunnel/protobuf-messages.js:1059-1124 | returns a message as it is, else builds the message an object stands for, or fails on bad base64 |
| ObjectForm.UnknownNames | lib/aws-iot-tunnel/protobuf-messages.js:1063-1104 | a known name gives its number, an unknown one leaves the type absent |
| ObjectForm.NumbersWrap | lib/aws-iot-tunnel/protobuf-messages.js:1105-1122 | the stream id is taken modulo 2^32 as signed, the connection id as unsigned |
| ObjectForm.ObjectRoundTrip | lib/aws-iot-tunnel/protobuf-messages.js:1059-1173 | for all options `fromObject` of `toObject` is the message, or with defaults the message with every property present; unknown types and empty payloads included |
| ObjectForm.ObjectRoundTripExact | lib/aws-iot-tunnel/protobuf-messages.js:1139-1154 | all the version knows of the message comes back, absence included, if and only if defaults were not asked for or every property was present |
| ObjectForm.AbsenceIsLost | lib/aws-iot-tunnel/protobuf-messages.js:1139-1154 | with defaults the empty message comes back with every property |
| RemoteFiles.PutAloneResult | pkg/sshclient/sftp.go:66-101 | the exact condition for success, the target's content in every case, and that no other file changes |
| RemoteFiles.TempFileAfter | pkg/sshclient/sftp.go:72-98 | exactly when a temporary file is left behind, and what it holds |
| RemoteFiles.ErrorAfterInstall | pkg/sshclient/sftp.go:93-98 | an upload that returns an error with its data in place |
| RemoteFiles.SFTPSession.PutFile | pkg/sshclient/sftp.go:66-101 | computes that outcome; on success the target holds the data and no temporary file is left |
| RemoteFiles.SFTPHandle.Put | lib/sftp.ts:27-35 | on an open handle exactly an upload of the input bytes to the path is made, with its condition for success; a success leaves the target equal to them, and a closed handle does nothing |
| RemoteFiles.TempPathsDiffer | pkg/sshclient/sftp.go:67-71 | distinct suffixes give distinct temporary paths, whatever the targets |
| UploadRuns.UploadsAreAtomic | pkg/sshclient/sftp.go:61-101 | in every intermediate state of any interleaving, with any failures and short writes, a path holds its old content or the complete data of the last upload installed there |
| UploadRuns.OutcomeIsHonest | pkg/sshclient/sftp.go:93-100 | success means the upload's own rename installed its data; an error means it never did, if and only if no rename request of it was performed and reported as failed during the run |
| UploadRuns.ErrorChangesNothing | pkg/sshclient/sftp.go:66-101 | unless the server performed a rename of it that was reported as failed, each request of an upload that returns an error leaves every path but temporary files as it was |
| UploadRuns.PutFileIsRun | pkg/sshclient/sftp.go:66-101 | `PutFile` alone is one of these runs, with the same files and result |
| SSHClient.Client.Send | pkg/sshclient/client.go:402-432 | the exact condition for success, and the queue in both cases |
| SSHClient.Client.StartShell | pkg/sshclient/client.go:293-346 | succeeds exactly when a shell runs afterwards, and what a partial failure leaves |
| SSHClient.Client.Disconnect | pkg/sshclient/client.go:445-476 | the channel is closed once and every field dropped |
| ClientRuns.ChannelSafety | pkg/sshclient/client.go:402-476 | in every interleaving nothing is sent on a closed channel or closes it twice, pending input is first-in first-out and at most 100, and every connection made starts at most one shell |
| ClientRuns.ClosedForever | pkg/sshclient/client.go:448-467 | after the channel was closed no `Send` is accepted in any continuation |
| ClientRuns.DisconnectIsFinal | pkg/sshclient/client.go:451-455 | a finished critical section of `Disconnect` leaves the channel closed and nil |
| ClientRuns.AcceptedWhileShellRuns | pkg/sshclient/client.go:406-428 | input is accepted only while a shell runs, although `Send` drops its lock to start one |
| ClientRuns.SendIsRun | pkg/sshclient/client.go:402-432 | `Send` alone is one of these runs, with the same state and result |
| ClientRuns.StartShellIsRun | pkg/sshclient/client.go:293-346 | so is `StartShell` |
| ClientRuns.DisconnectIsRun | pkg/sshclient/client.go:445-476 | so is `Disconnect` |

## Left out

- Tunnel.SecureTunnelTransport.Connect: one connection per transport; URL building, the constructor's errors and a second `connect()`, which would reuse buffers and flags, are not modelled.
- Tunnel.SecureTunnelTransport.HandleMessage: a listener that throws is not modelled; listeners are taken to be set, and their calls back into the transport are separate events of a run.
- TunnelPeers.EverythingCanArrive: that the network does deliver is not claimed, and the service between the two sides is taken to pass bytes on unchanged.
- Wire.SkipType: varints end within ten bytes as the encoding specification has it; `protobufjs/minimal` is not part of this model, nor is any nesting limit it may have.
- Codec.DecodeMessage: every failure is one error value, since callers only report it; strings are their UTF-8 bytes.
- JSTransport.Transport.Read: a read that would wait reports so and changes nothing; `Write` passes bytes on without state and is omitted.
- Injections.PlacesKeptExactly: one listener injects, one payload at a time, as the single JavaScript thread does.
- Base64.Decode: line breaks, which the decoder in Go skips, are errors here; `btoa` writes none.
- ArgvLayout.LayOut: the environment strings are given as `key=value`, in the order of the sorted keys.
- LinearMemory.Int64RoundTrip: numbers are exact reals, so nothing is said above 2^53, where doubles round.
- ValueTableRuns.TableSafety: Go finalizes a reference at most as often as it received it; the Go runtime's side of that is not part of this model.
- RemoteFiles.SFTPSession.PutFile: a write that reports all bytes written is taken to have stored them, and files outside the uploads do not change under it; directories and permissions are not modelled.
- UploadRuns.UploadsAreAtomic: suffixes are distinct and no target is another upload's temporary file, as random suffixes make it.
- ClientRuns.ChannelSafety: safety only; the goroutines that copy output, `ResizeTerminal` and the session registry are omitted, and a pending writer does not hold up new readers, which only adds interleavings.
- ObjectForm.FromObject: base64 text is read as section 4 of RFC 4648 has it, so unpadded text is an error, which the decoder in `protobufjs/minimal`, not part of this model, may accept; a non-array list of service ids and non-string names, which throw or are converted, are not modelled.
- SSH handshake, authentication, host keys and error classification: `golang.org/x/crypto/ssh` is not part of this model.
- `lib/tunnel.js`: another generated codec with a different field layout, which the transport does not use.
- The framework integrations, `verify`, `getTypeUrl`, logging and the promise glue: no state or arithmetic worth a proof.
