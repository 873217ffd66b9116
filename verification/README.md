# Verification of modbusone

modbusone speaks Modbus over serial lines (RTU) and over TCP. This project models its logic in Dafny and proves what the
library is for: exact packets out of a noisy, arbitrarily cut up byte stream, checksums that detect damage, requests and
replies whose two ends agree, and state machines (client, server, failover, passive mirror) that keep their promises over
every run.

    dafny verify dfyconfig.toml

## The parts

| files | what they model |
|---|---|
| `Crc`, `CrcDistance`, `CrcTable` | the checksum: the bit-serial register of polynomial 0xA001, the order of x modulo its generator, the two tables of `crc/crc.go` entry by entry, and the loop over them |
| `Modbus`, `Data`, `Rtu`, `RtuSize` | function codes, PDUs, packed data, RTU packets and the sizes inferred from a header |
| `ReaderModel`, `ReaderSafety`, `ReaderFraming`, `ReaderBuffer`, `LoneFrame`, `Guessing`, `PacketReader` | the RTU packet reader, as functions on the bytes of a port and as the loops over the caller's buffer; frames whose direction it knows, and those where it guesses |
| `Handler`, `Transactions`, `Requests` | typed callbacks, one transaction end to end, long transfers split into requests |
| `Failover`, `FailoverSafety`, `FailoverRuns`, `FailoverConn` | the failover connection, step by step under its lock |
| `RtuClient`, `RtuServer`, `Mirror`, `MirrorAnswers`, `MirrorRuns`, `Tcp` | the client loop, the server loop, the failover client, how it answers and what it hears while passive, TCP framing and one TCP connection |
| `Bytes`, `Seqs`, `Serial` | bytes, a fact about sequences, the counters of a serial context |
| `Wire`, `Network`, `Transfers` | the parts together: packets between loops and readers, whole transfers between a client and a server, and these over byte streams |

The main results:

- **Reader.** Whatever the port delivers, the bytes taken are exactly the segments returned or dropped, in order, plus those
  in hand, and each counter counts its segments (`EveryRunIsSafe`). Well-formed frames come out one for one, however they are
  cut up (`Framing`), also after any garbage once a silence longer than the cutoff has passed (`Resynchronisation`). Where the
  direction is guessed, exactly when a frame comes out is said by `ForeignFrameIff` and `EitherWayFrameIff`. The in-place loops do the same as the functions these theorems are about (`Read`, `RunIsCalls`).
- **Checksum.** The table-driven loop is the bit-serial register (`Hash.Write`, `TablesAreOk`). In frames of any length, every
  burst of up to 16 bits, every change within two adjacent bytes and every odd number of flipped bits is detected; two flipped
  bits are exactly if their distance is no multiple of 32767 (`TwoFlipsDetectedIff`), so up to three in 4095 bytes always are.
- **Transactions.** What one side encodes the other decodes, for every function code, address, quantity and value
  (`WriteEndToEnd`, `ReadEndToEnd`); a transfer of any range, split in any way, over byte streams cut up in any way, hands over
  exactly its values and counts no error (`RangeTransferredOverTheWire`).
- **State machines.** While it runs, the client answers every transaction once, in order, and without error only if confirmed; the
  server answers exactly what is asked of it; a failover node sends only while active, becomes active only after its misses,
  stays out of the way of a healthy one and replaces a silent one; a passive client stays passive exactly as long as its writes
  are sparse, and then its handler gets exactly the calls that the active one's gets (`BothHandlersGetTheSame`).

Where the code has loops or mutable state, the model has them too: classes with the same fields, methods with the same loops,
proved equal to functions on values, about which the theorems are then proved. Histories (`log`, `trace`) are kept
only in the model.

## What the code does that its documentation does not say

- A read that exactly fills the caller's buffer is returned without a checksum test (packet_reader.go:95). `UntestedPacket` gives
  such a packet with a bad checksum; `TestedIffShorter` says that the length tells exactly which packets were tested.
- Bytes carried over are lost if the next call of Read has a smaller buffer (packet_reader.go:66-67). `BeginConservesIff` says
  exactly when, `SmallerBufferLoses` gives a run.
- `GetRTUBidirectionalSizeFromHeader2` prefers the request direction after a packet that reads as a request, and the reply
  direction after any other (packet_reader.go:249-253), although lastPacket is documented to tell requests from replies. The
  model follows the code. On a two-wire bus the reader of a server therefore does not return every valid frame of another
  slave: `ReplyIsHeld` gives a request and its reply after which the reply is held for two bytes that never come.
  `ForeignFrameIff` says exactly which frames are returned, and what becomes of the others; `GuessedSizeIff` that with the
  preference documented every frame is inferred at its own length.
- `GetRTUBidirectionalSizeFromHeader`, by which every failover connection reads (failover.go:74), is documented to take a long
  packet for a shorter one now and then. `EitherWayFrameIff` says that this happens to no frame but one that begins with a valid
  packet of the other direction, and to each of those when a read ends there; `HiddenRequest` gives one.
- The server does not bound the count of a read request (modbus.go:315-323). What becomes of its reply:
  - Over TCP, data that does not fit the server's buffer makes `writeTCP` panic (tcp_server.go:53). `RepliesInOrder` says exactly
    when, `TooLongCount` that without oversize support these are the reads of more than 125 registers or 2008 bools, and
    `OneRequestPanics` gives a request of twelve bytes.
  - Over RTU, the client reads into 256 bytes whatever the oversize setting (rtu_client.go:135). `ReadReplyArrivesIff` says that
    its reader returns the reply exactly up to 125 registers or 2008 bools.
  - `IsRequestReply` by itself, which looks at the length byte, would recognise it up to 127 registers or 2040 bools
    (`UnboundedReadReply`).
- `IsRequestReply` compares the number of bytes in one byte only (failover.go:376-379). `AcceptedCountIff` says that a reply it accepts
  for a read request, whoever made it, gives the handler the number of values asked for exactly from 1 to 127 registers or 2040
  bools, and how many registers otherwise; `OneRegisterAccepted` is a reply with one register for a request for 129.
- A request header of code 15 or 16 that is too short does not fail: `p[:6]` reaches behind it into the checksum of its own
  packet (modbus.go:421). `ChecksumAsByteCount` says what a client sends for a header without its byte count,
  `ChecksumTakenIff` exactly when a server takes it.
- `DataToBools` panics on empty data for a count above 65528 (data.go:30-41). `OverrunsExactly` says that it panics on nothing else,
  `ValuesAreThere` that the library never passes empty data to it.
- `MaxPerPacketSized` takes its size modulo 2^16, so that a negative size may allow too many values;
  `SizedWithinPacket` says exactly when it does not.
- A primary server that goes passive keeps its misses. `PrimaryKeepsItsMisses` gives the run, `PrimaryServerIsSafe` the exact
  condition.
- A client that reads an error while a transaction is pending never answers it, and a transaction started while another is
  pending is never answered either. `EndsUnanswered` says exactly when one is lost.
- A passive client may take a request for a reply to an earlier one. `ExchangeMirroredIff` says that an exchange is mirrored exactly
  if that does not happen, `ReadRequestMistaken` exactly when it does for a read, `ExchangeMistaken` what then comes of it: the
  handler gets bytes of the request as data and never the real data. `MistakenCoil` gives a run.
- Two servers may be active at once: `BothActive` gives the runs, of a primary whose replies the failover does not hear.

## Model

| member | source | states |
|---|---|---|
| Crc.ShiftIsConditionalXor | crc/crc.go:9-50 | One step of the register is the reflected CRC-16 step: shift right, and xor 0xA001 if a one fell out. |
| Crc.RunConcat | crc/crc.go:69-78 | Writing in pieces is writing at once, for every split. |
| Crc.RunIsRunBits | crc/crc.go:69-78 | Feeding bytes is feeding their bits, least significant first, as they go over the wire. |
| Crc.ValidIffClear | crc/rtu.go:4-13 | A packet is accepted exactly if the register is clear after all of it, checksum included. |
| Crc.SumIsValid | crc/rtu.go:16-18 | What Sum appends is accepted by Validate, and changes nothing before it. |
| Crc.ValidIsSum | crc/rtu.go:4-18 | Every packet accepted is the Sum of its bytes before the checksum. |
| Crc.AcceptedIffDamageClears | crc/rtu.go:4-13 | Of two packets of one length, if one is accepted the other is exactly if the pattern of their differences clears the register, whatever the packets are. |
| Crc.BurstDetected | crc/rtu.go:4-13 | A packet of any length changed only within 16 consecutive wire bits, checksum included, is rejected. |
| Crc.AdjacentBytesDetected | crc/rtu.go:4-13 | A packet of any length changed only in two adjacent bytes, checksum included, is rejected. |
| Crc.ValidHasEvenParity | crc/rtu.go:4-13 | Every accepted packet has an even number of one bits. |
| Crc.OddDamageDetected | crc/rtu.go:4-13 | A packet with any odd number of bits flipped, wherever they are, is rejected. |
| CrcDistance.PeriodIff | crc/crc.go:9-50 | The order of x modulo the generator is 32767: exactly after its multiples the register comes back. |
| CrcDistance.TwoFlipsDetectedIff | crc/rtu.go:4-13 | A packet with exactly two bits flipped is rejected exactly if their distance is no multiple of 32767. |
| CrcDistance.UpToThreeDetected | crc/rtu.go:4-13 | A packet of up to 4095 bytes with one, two or three bits flipped, wherever they are, is rejected. |
| CrcTable.TablesAreOk | crc/crc.go:12-50 | All 256 entries of the two literal tables are what eight steps of the register make of the byte. |
| CrcTable.TableEntry | crc/crc.go:69-78 | Folding in one table entry is eight steps of the register. |
| CrcTable.Hash.Reset | crc/crc.go:64-67 | The register starts at 0xFFFF. |
| CrcTable.Hash.Write | crc/crc.go:69-78 | The table-driven loop leaves the register where feeding all the bytes bit by bit leaves it. |
| CrcTable.Hash.Sum | crc/crc.go:80-84 | Appends the checksum of the bytes, low byte first, without changing the hash. |
| CrcTable.Sum | crc/rtu.go:16-18 | Equals the bit-serial definition. |
| CrcTable.Validate | crc/rtu.go:4-13 | Equals the bit-serial definition, on inputs of every length. |
| RtuSize.PduSizeStable | packet_reader.go:143-180 | Reading on never shortens the inferred PDU size, and does not change it once that many bytes are there. |
| RtuSize.SizeStable | packet_reader.go:187-195 | The same for RTU packets, in both directions, with and without oversize packets. |
| RtuSize.SizeAtLeast | packet_reader.go:187-195 | From three bytes on, no packet is inferred to be shorter than five. |
| ReaderSafety.RunGood | packet_reader.go:59-138 | From every good state, over every sequence of port reads, in every mode: bytes are conserved in order, each drop is counted once, ReadPackets counts the outer loop, no more warnings are counted than packets returned, lastRTU is the latest valid packet returned. |
| ReaderSafety.EveryRunIsSafe | packet_reader.go:59-138 | From the making of the reader on: the bytes from the port are exactly the returned and dropped segments and those in hand; every packet returned is either shorter than the buffer, of five bytes or more and valid, or fills the buffer, or came with an error. |
| ReaderFraming.FramesAreFramed | packet_reader.go:187-216 | A packet whose header announces its length is inferred to be neither shorter nor longer at any point of its arrival: in one direction; on a shared two-wire bus for a client, and for a server if it has its own id or is a broadcast; and in either direction if it is a broadcast. |
| ReaderFraming.RunDelivers | packet_reader.go:59-138 | From a reader in the middle of a frame: every way of cutting up the rest of the stream yields exactly its frames. |
| ReaderFraming.Framing | packet_reader.go:59-138 | A stream of such frames, cut up in any way without long gaps inside a frame or reads that fill the buffer, is returned frame by frame, never waiting for bytes past the current one, with no drops and no format warnings. |
| ReaderFraming.Resynchronisation | packet_reader.go:64-98 | From every reachable state that waits on the port, in the same modes, a silence longer than the cutoff drops exactly what was in hand, and the frames after it are the next packets returned. |
| ReaderBuffer.TestedIffShorter | packet_reader.go:95-137 | Of any call of any run: what is returned without an error is valid and was tested if it is shorter than the buffer, and was not tested if it fills it. |
| ReaderBuffer.UntestedPacket | packet_reader.go:95-97 | A packet with a bad checksum that Read returns, in every mode. |
| ReaderBuffer.BeginConservesIff | packet_reader.go:65-67 | A call of Read takes up all bytes carried over exactly if they fit its buffer. |
| ReaderBuffer.SmallerBufferLoses | packet_reader.go:65-67 | A run in which a call with a smaller buffer loses a byte. |
| LoneFrame.LoneFrameComes | packet_reader.go:59-138 | A valid frame that comes to a reader between packets, and of which no part is inferred to be complete, is returned once and whole in every fragmentation exactly if it fills the buffer or is inferred to be complete; otherwise all of it is held. |
| LoneFrame.OneFrameArrives | packet_reader.go:59-138 | A well-formed frame that comes to a reader between packets is returned once and whole, however it is cut up, also if it fills the buffer. |
| LoneFrame.LongFrameNeverArrives | packet_reader.go:59-138 | A frame longer than the buffer is never returned, in any run. |
| Guessing.GuessedSizeIff | packet_reader.go:256-272 | Of a whole frame, exactly when the size function with one direction preferred infers its own length; with its own direction preferred always. |
| Guessing.ForeignFrameIff | packet_reader.go:206-254 | A frame of another slave on a two-wire bus, however it is cut up, is returned by a server's reader exactly if its direction is preferred, or its size in the other is the same or is shorter without a valid packet there; otherwise it is held, or cut. |
| Guessing.ReplyIsHeld | packet_reader.go:244-254 | A run in which a valid reply is held and not returned. |
| Guessing.EitherWayFrameIff | packet_reader.go:223-242 | A frame of either direction is returned whole in every fragmentation exactly if it does not begin with a valid packet of the other direction. |
| Guessing.HiddenIsReturned | packet_reader.go:223-242 | If it does, that packet is returned when a read ends there. |
| Guessing.HiddenRequest | packet_reader.go:223-242 | A reply that begins with a whole request. |
| Guessing.TalkReturned | packet_reader.go:59-138 | A whole conversation in both directions is returned frame by frame, if no frame hides another. |
| PacketReader.RunIsCalls | packet_reader.go:59-138 | A run of the model is a sequence of calls of Read, each taking up what the one before carried over. |
| PacketReader.RtuPacketReader.CarryOver | packet_reader.go:65-67 | Bytes carried over are copied to the front of the buffer, and only once. |
| PacketReader.RtuPacketReader.PollPort | packet_reader.go:69-97 | One read of the port into the buffer: grown, restarted after a silence, or ended by an error or a full buffer. |
| PacketReader.RtuPacketReader.Infer | packet_reader.go:99-115 | The size is inferred anew exactly when the bytes expected before are there. |
| PacketReader.RtuPacketReader.CheckSum | packet_reader.go:117-136 | The packet returned, what is carried over and the counters, for all outcomes of the checksum tests. |
| PacketReader.RtuPacketReader.Fill | packet_reader.go:64-116 | The inner loop over buffer and fields reaches what the model reaches. |
| PacketReader.RtuPacketReader.Read | packet_reader.go:59-138 | A call returns the bytes, leaves the fields and consumes the port as the model says, for every buffer and script. |
| Data.UnpackPack | data.go:44-84 | Packed bools unpack to themselves, and the bits that fill up the last byte are zero. |
| Data.PackInjective | data.go:44-84 | No two lists of bools of one length are packed alike. |
| Data.PackCoils | data.go:60-84 | The loop with byteNr, bitNr and byteVal fills the array with the packing. |
| Data.BoolsToData | data.go:44-84 | Packs, or encodes a single coil as 0xFF00 or 0x0000, or fails on more than one. |
| Data.DataToBools | data.go:9-42 | Decodes a single coil or the first count bits; every length and content that is wrong is an error; and it panics exactly on the inputs of OverrunsExactly. |
| Data.OverrunsExactly | data.go:29-41 | The length test passes and the slice is out of range exactly for a count above 65528 with empty data. |
| Data.ValuesAreThere | modbus.go:352-407 | GetRequestValues and GetReplyValues never yield empty data. |
| Data.UnpackPackRegisters | data.go:87-107 | Registers written as two bytes each, high byte first, read back the same. |
| Data.DataToRegisters | data.go:87-98 | The loop decodes every even number of bytes and rejects an odd one. |
| Data.RegistersToData | data.go:101-107 | The loop encodes all registers. |
| Rtu.GetPduOfMakeRtu | serial_rtu.go:65-107 | Every PDU of two bytes or more put into a packet comes out of it; the packet is three bytes longer. |
| Rtu.MakeRtuOfGetPdu | serial_rtu.go:65-103 | Every packet accepted is the one that would be made of its id and PDU. |
| Handler.CheckValues | simple_handler.go:92-104 | Succeeds exactly if the callback does with at least count values, and passes on the first count; otherwise its error, or a device failure. |
| Handler.Fetch | simple_handler.go:40-90 | What a callback yields has the kind of the function code and exactly count values. |
| Handler.DecodeEncode | simple_handler.go:40-154 | For every function code and number of values a packet may carry, decoding inverts encoding, at the length announced. |
| Transactions.HeaderMade | modbus.go:162-185 | A request header is made exactly for a supported code, 1 to MaxPerPacket values and a range within the address space. |
| Transactions.HeaderFields | modbus.go:162-185 | The getters read back from the header what it was made of. |
| Transactions.RequestTaken | modbus.go:315-397 | A server accepts every consistent write request and hands its handler the address and values in it. |
| Transactions.WriteReplyFits | modbus.go:428-433 | The reply to a write is its first five bytes and is recognised as its reply. |
| Transactions.WriteEndToEnd | modbus.go:352-433 | For every write code, address and list of values in range, the client's packet is accepted, decodes to exactly these values, and its reply is the one the client waits for; with and without oversize support. |
| Transactions.ClientWrites | rtu_client.go:169-176 | What the client sends for a write is the request for the values of its own handler. |
| Transactions.ReadReplyFits | modbus.go:400-411 | A read reply of the right length states its length and is recognised as the answer. |
| Transactions.ReadEndToEnd | simple_handler.go:40-154 | For every read request and a server with enough values, the client hands its handler exactly the first quantity of them under the address asked for. |
| Transactions.UnboundedReadReply | failover.go:355-391 | IsRequestReply accepts the reply to a read request of any count exactly up to 127 registers or 2040 bools, the limit of the length byte. |
| Transactions.CallIsPrefix | simple_handler.go:92-104 | Too few values are a device failure; otherwise exactly the first count are used. |
| Transactions.ExceptionEndToEnd | modbus.go:280-312 | A failing request is answered by an exception that matches it and carries the code. |
| Transactions.AcceptedReplyDecodes | failover.go:355-391 | Any reply accepted for a read request of the library's own decodes to exactly the number of values asked for. |
| Transactions.AcceptedCountIff | failover.go:355-391 | For which counts a reply accepted for any read request gives the handler the number of values asked for, exactly; and how many registers it gives otherwise. |
| Transactions.OneRegisterAccepted | failover.go:355-391 | A reply with one register is accepted for a request for 129. |
| Requests.MakeRequestHeadersSized | rtu_client.go:324-342 | The loop ends with the requests appended after an untouched prefix; it fails exactly when the range does not exist or the first request cannot be made. |
| Requests.HeadersAreFaithful | modbus.go:162-185 | The headers made say code, address and quantity they were made for. |
| Requests.SplitTiles | rtu_client.go:324-342 | The requests are contiguous, in order, all but the last of the maximal size, and end where the range ends. |
| Requests.SplitCount | rtu_client.go:324-342 | There are ceil(quantity / maxPerPacket) of them. |
| Requests.SplitCovers | rtu_client.go:324-342 | Each value of the range is transferred by exactly one request, and no other value by any. |
| Requests.SizedFits | modbus.go:115-157 | For sizes from ten on, MaxPerPacketSized lies between 1 and MaxPerPacket, and PDUs that carry that many values fit in min(size, 253) bytes. |
| Requests.SizedWithinPacket | modbus.go:115-157 | Exactly which sizes, negative ones included, never allow more than MaxPerPacket. |
| Requests.NegativeSizeOverflows | modbus.go:115-157 | A negative size that allows 32766 registers. |
| Requests.TilesFit | rtu_client.go:324-342 | Every request split for a PDU size asks for no more than fits in it. |
| FailoverSafety.RunKeeps | failover.go:94-341 | Every interleaving of reads, writes and delayed writes keeps the invariant that ties isActive and misses to the history. |
| FailoverSafety.FailoverServerIsSafe | failover.go:94-341 | A failover server sends only while active, every activation follows exactly MissesMax + 1 misses since the last reset, and while passive misses is at most MissesMax. |
| FailoverSafety.StaleReplyNeedsFreshMisses | failover.go:321-337 | A reply delayed over a deactivation is not sent, unless MissesMax + 1 misses, all after it, activated the connection again. |
| FailoverSafety.PrimaryServerIsSafe | failover.go:113-129 | A primary is activated only by PrimaryForceBackDelay or by more than MissesMax misses, and has more than MissesMax of them exactly if misses activated it since the last reset. |
| FailoverSafety.PrimaryKeepsItsMisses | failover.go:121-124 | A run after which a primary is passive with more than MissesMax misses. |
| FailoverSafety.MissesAreSuppressed | failover.go:305-313 | A client counts a miss exactly for each write it suppresses. |
| FailoverSafety.ClientIsSafe | failover.go:230-320 | For a client, misses is the number of writes suppressed since the last packet read and never above MissesMax, and misses activate it only after exactly MissesMax of them. |
| FailoverRuns.HealthyServerIsLeftAlone | failover.go:161-192 | Next to a server that answers every request in time, a passive failover server never counts a miss, sends or becomes active, whatever is written to it meanwhile. |
| FailoverRuns.SilentServerIsReplaced | failover.go:161-192 | Next to a server that answers nothing, it becomes active with request MissesMax + 2, not earlier, and sends nothing until then. |
| FailoverRuns.SilentServerIsTakenOver | failover.go:130-194 | The whole history: it suppresses everything during MissesMax + 1 requests, becomes active with the next, and from that one on sends the reply to every request, in order. |
| FailoverRuns.ActiveServerKeepsServing | failover.go:321-337 | An active failover server that hears only requests stays active and sends every reply, in order. |
| FailoverRuns.BothActive | failover.go:113-192 | A primary that serves all along and a failover that hears none of its replies are both active. |
| FailoverRuns.ReturningServerWins | failover.go:144-160 | A packet heard between a request and its own reply makes an active failover server passive, and the reply under way is not sent. |
| FailoverRuns.SilentClientIsReplaced | failover.go:289-320 | A failover client that reads nothing suppresses exactly the writes it may still miss, becomes active with the next one, and sends that and all after it, in order, whenever they come. |
| FailoverRuns.ActiveKeepsSending | failover.go:315-319 | An active failover client sends every write, in order. |
| FailoverRuns.ReturningClientWins | failover.go:230-265 | An active failover client stays active exactly if the packet after its request is the reply to it, in time. |
| FailoverConn.FailoverSerialConn.ServerRead | failover.go:110-194 | One turn of the read loop under the lock: new fields and verdict as in the model, for primary and failover. |
| FailoverConn.FailoverSerialConn.ClientRead | failover.go:230-265 | The client's read, as in the model. |
| FailoverConn.FailoverSerialConn.ClientWrite | failover.go:289-320 | The client's write, as in the model, and whether the frame is sent. |
| FailoverConn.FailoverSerialConn.ServerWriteStart | failover.go:321-326 | The first locked part of a server's write; an active failover has to wait. |
| FailoverConn.FailoverSerialConn.ServerWriteEnd | failover.go:327-336 | The second part, after the delay; sent only if still active. |
| RtuClient.AnsweredInOrder | rtu_client.go:149-253 | On every sequence of actions: while idle every transaction started has been answered exactly once, in order; while waiting all but the last; never anything twice. |
| RtuClient.EndsUnanswered | rtu_client.go:186-203 | When the loop ends, every transaction has been answered exactly if it was idle; otherwise exactly which one never is. |
| RtuClient.ReadFailureLeavesUnanswered | rtu_client.go:197-198 | After a read error while a transaction is pending nothing is answered any more, whatever comes. |
| RtuClient.WaitingSince | rtu_client.go:149-253 | While a transaction is pending, only packets of other slaves came after its start, and its frame was the last thing written. |
| RtuClient.NilMeansDone | rtu_client.go:149-253 | A nil answer means a broadcast, or that the first packet from the slave is valid and answers the request, and that for a read the handler took its values between the request and the answer. |
| RtuClient.ConfirmedIsDone | rtu_client.go:205-249 | Conversely such a transaction is answered nil, after any number of packets of other slaves, each counted in IDDrops. |
| RtuClient.ChecksumAsByteCount | modbus.go:415-425 | For a write header without its byte count, what is sent has the low byte of its checksum there. |
| RtuClient.ChecksumTakenIff | modbus.go:352-397 | Exactly when a server accepts that. |
| RtuClient.RtuClient.ServeRtu | rtu_client.go:149-253 | The nested loops do to the counters and to the world what the model does, for requests of any length. |
| RtuServer.OneReplyEach | rtu_server.go:57-129 | Over every packet sequence with writes succeeding, each valid packet for the server's own id has exactly one response, in order; broadcasts, other ids and damaged packets have none. |
| RtuServer.ReplyTells | rtu_server.go:84-127 | The response has the code of the request or its error flag, exactly if it fails; it satisfies MatchPDU exactly if the request's code is below 128. |
| RtuServer.OneCallEach | rtu_server.go:107-126 | OnWrite is called exactly once, in order, for every acceptable write to the server or to all. |
| RtuServer.EveryPacketCounted | rtu_server.go:57-129 | Each packet is counted once: in CrcErrors exactly if damaged, in IDDrops exactly if for another id, otherwise in OtherErrors or carried out. |
| RtuServer.FailureEnds | rtu_server.go:57-65 | After a failed read or a failed write nothing more is sent, and its error is returned. |
| RtuServer.RtuServer.Serve | rtu_server.go:42-130 | The loop does to counters, wire and handler what the model does. |
| Mirror.FailoverRtuClient.Serve | failover_rtu_client.go:66-245 | The loop over its connection, passive and active: what it does to the counters, the connection, the handler and the answers is what the model does. |
| Mirror.FailoverRtuClient.Overhear | failover_rtu_client.go:89-141 | The same for a packet that comes while no transaction is pending. |
| Mirror.FailoverRtuClient.StartTransaction | failover_rtu_client.go:157-182 | The same for a transaction started: suppressed or sent as the connection decides. |
| Mirror.FailoverRtuClient.ReadPacket | failover.go:230-278 | The same for a packet, through the connection, with a transaction pending or not. |
| MirrorAnswers.AnsweredInOrder | failover_rtu_client.go:143-245 | On every sequence of events, passive and active mixed: while idle every transaction started has been answered exactly once, in order; while waiting all but the last; never anything twice. |
| MirrorAnswers.EndsUnanswered | failover_rtu_client.go:183-195 | When its loop ends, every transaction has been answered exactly if it was idle; otherwise exactly which one never is. |
| MirrorRuns.StaysPassiveIff | failover_rtu_client.go:143-182 | A failover client stays passive throughout a run exactly if at most MissesMax of its writes fall between two packets and no read fails. |
| MirrorRuns.ReadsAreMirrored | failover_rtu_client.go:89-182 | Under that condition, over every sequence of exchanges interleaved with transactions of its own: the handler gets one OnWrite per read, with that request and data, and none for writes and refused requests; last is empty after an answered exchange; each transaction of its own is answered. |
| MirrorRuns.ExchangeMirroredIff | failover_rtu_client.go:104-141 | After anything at all, an exchange is mirrored and leaves nothing pending exactly if its request does not pass for a reply to what was heard last. |
| MirrorRuns.ExchangeMistaken | failover_rtu_client.go:104-141 | What comes of it otherwise: for a read, a call with the old request and bytes of the new one; the reply is taken for the next request. |
| MirrorRuns.MistakenCoil | failover_rtu_client.go:104-141 | A run of a new failover client in which its handler is given wrong data and never the right one. |
| MirrorRuns.ActiveClientReads | rtu_client.go:205-249 | Whatever exchanges the active client carries out, its handler gets exactly the reads among them, with their data. |
| MirrorRuns.BothHandlersGetTheSame | failover_rtu_client.go:89-182 | The handlers of the active and of the passive client get the same calls of OnWrite, in the same order. |
| MirrorRuns.ReadRequestMistaken | failover.go:355-391 | Exactly when a read request passes for a reply; for registers never. |
| MirrorRuns.OnlyPacketsAreHeard | failover_rtu_client.go:143-182 | While it stays passive, transactions of its own do not disturb what it overhears. |
| MirrorRuns.EveryStartAnswered | failover_rtu_client.go:157-182 | While it stays passive, each of them is answered once, in order, with an error only if its handler has no data. |
| Tcp.ReadTcp | tcp_server.go:28-45 | Takes from the connection exactly what the header announces, or fails as the code does; nothing in the buffer behind it changes. |
| Tcp.WriteTcp | tcp_server.go:48-54 | Writes one frame with the ids in front of the buffer and the length of the PDU; panics, writing nothing, exactly if the PDU does not fit the buffer. |
| Tcp.FrameRead | tcp_server.go:28-54 | A frame written under protocol 0 is read back exactly if its PDU has two bytes or more and fits the buffer. |
| Tcp.StreamRoundTrip | tcp_server.go:28-54 | Every sequence of such PDUs, written one after the other, is read back in order. |
| Tcp.ServeConnection | tcp_server.go:82-118 | The loop over one shared buffer writes what the model says, until a frame or request it cannot take, and panics exactly when the model does. |
| Tcp.RepliesInOrder | tcp_server.go:58-121 | Whatever well-formed requests arrive on a connection, the client reads one reply each, in order, under the transaction and unit ids of its request, up to the first whose reply is too long; the server panics exactly if there is one. |
| Tcp.ReplyFitsIff | tcp_server.go:48-54 | A reply does not fit the buffer exactly if it is to a read with more data than there is room for. |
| Tcp.TooLongCount | tcp_server.go:74-78 | For a handler with enough values and no oversize support: exactly the reads of more than 125 registers or 2008 bools. |
| Tcp.OneRequestPanics | tcp_server.go:48-54 | A request of twelve bytes that makes the server panic. |
| Wire.FrameWhen | packet_reader.go:187-195 | A packet made of a PDU is a well-formed frame exactly if the PDU has the length its header announces. |
| Wire.ExchangeFramed | failover.go:355-391 | Every request and its reply are well-formed frames for the readers they go to. |
| Wire.ExceptionFramed | modbus.go:299-303 | Every exception is a well-formed frame for the client's reader. |
| Wire.MessagesArrive | packet_reader.go:59-138 | All PDUs of announced length that one side sends are what the reader of the other side returns, however the bytes are cut up. |
| Wire.ReadReplyArrivesIff | rtu_client.go:135-146 | The client's reader returns the reply to a read request of any count exactly up to 125 registers or 2008 bools. |
| Network.DoTransactions | rtu_client.go:300-310 | Runs the transactions in order, up to the first that fails, and tells which. |
| Network.Transacted | rtu_client.go:149-253 | A transaction both sides agree on: what is sent, answered, handed to either handler, and nothing else. |
| Network.FailureReported | rtu_server.go:90-127 | If the server cannot serve a request, the client's caller gets exactly the exception code of the failure. |
| Network.RangeTransferred | rtu_client.go:300-342 | A transfer of any range with any code, split in any way, from a side that has the values of the range: all transactions succeed, no error is counted, and the callbacks of the side that takes them get exactly those values, in consecutive pieces. |
| Transfers.WireIsTransparent | rtu_client.go:128-253 | A transaction whose bytes go through the ports and readers of both sides, cut up in any way, does what it does between the loops, and leaves both readers between packets. |
| Transfers.RangeTransferredOverTheWire | rtu_client.go:300-342 | The transfer of any range over such byte streams. |

## Left out

- Ports, connections, clocks and goroutines: a port is a finite script of what its reads return and when; actions, packets,
  clock readings and failures arrive as events in any order. Read of the packet reader returns "blocked" when the script is used up.
- One clock reading is taken per locked step of the failover connection, where the code takes up to two.
- A step of the failover connection is what happens under one hold of its lock; the loop of serverRead is one step per packet.
- Handlers of the loops are given by what they return for each event; a callback that runs concurrently is not modelled.
- Whole transfers (`Network`) are followed for OnWrite callbacks that accept what they get; one that fails ends the transfer, as
  the theorems about the two loops say.
- `PacketCutoffDuration`, `BytesDelay` and `MinDelay` (serial.go) are arbitrary functions of the number of bytes.
- ForeignFrameIff: leaves out frames as long as the buffer; such a frame is returned whatever is inferred of it, but whether a
  packet in front is cut off first depends on the port reads.
- Where the direction is guessed, frames come one at a time, each to a reader between packets.
- The array of a packet has room for eight bytes at least, cleared behind the packet, as the Go runtime allocates it; the language
  only promises that the checksum is there.
- A packet the failover client reads reaches its connection and its loop in one step; the code hands it over through a channel, so
  that one transaction may be started in between.
- `append` in `MakeWriteRequest` may overwrite the caller's array behind the header; PDUs are values here, but for what lies behind a short header.
- `tcp_client.go`, `MultiIDHandler`, `minmax.go`, `Uint64ToSlaveID`, debug output, the cloning and resetting of Stats.
