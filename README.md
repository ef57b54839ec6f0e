# cr2 transport core: a verified model

This project models two parts of the cr2 client library in Dafny and proves
their properties.

- **The wire codec** (`src/packet.rs`).
  - The outer `EncryptedPacket` has a 20-byte header:
    - the version byte `0x08`;
    - three reserved `0xff` bytes;
    - a big-endian 64-bit route whose lowest bit carries the routing direction;
    - a big-endian 64-bit counter.

    The payload follows the header.
  - The inner `Frame` format packs seven tagged frame kinds back to back: Header, Stream, Ack, Ping, Disconnect, Close and Config. `0x00` bytes between frames are padding.
- **The endpoint's bookkeeping** (`src/endpoint.rs`):
  - *Address discovery.* A fresh peer channel counts receptions per sender address. It settles on the best-category address heard from once some address reaches five receptions.
  - *Migration.* An established channel moves to a new sender address when that address is not of a worse category.
  - *Outgoing connects.* Each is a stage machine `WaitingForHeaders → WaitingForResponse → done`, keyed by broker stream id. A broker stream close aborts it.
  - *Incoming connects.* The broker announces them on a stream, and each is reported at most once.
  - *Channel set-up.* `accept_outgoing` checks the connect response and builds the candidate path map.
  - *Large messages.* `Stream::message` sends a length header and then chunks of at most 600 bytes.

Layout:

- `wrappers.dfy`: `Option` and `Result`.
- `bytes.dfy`:
  - the fixed-width unsigned integers;
  - big-endian layouts and their two round trips;
  - the low-bit arithmetic used for the direction bit.
- `packet.dfy`:
  - `EncryptedPacket`, with `ParsePacket` as the meaning of `decode` and `PacketBytes` as the meaning of `encode`;
  - the cursor-based `Decode` and the append-based `Encode` methods proved equal to them;
  - the round trips and the unit-test vectors.
- `frames.dfy`:
  - `Frame`, `Len`, `Order`, `IsPing` and `IsAck`;
  - `FrameBytes` as the meaning of `Frame::encode` and `ParseFrames` as the meaning of `Frame::decode`;
  - the imperative `Encode` and `Decode` methods proved equal to them.
- `frame_properties.dfy`:
  - the frame round trips;
  - decoding over concatenations, padding, invalid types and truncation;
  - the unit-test vectors.
- `discovery.dfy`:
  - `AddressMode`, the per-address counts and the settle scan;
  - the migration rule and the path map built from offered paths.
- `endpoint.dfy`:
  - the connect stage machine as functions over the maps, with lemmas;
  - the `Endpoint` class, whose fields are the maps and sets the source updates in place;
  - the `Stream` class with the chunking of `message`.

Abstract parameters stand for:

- what the noise handshake returns: whether it could be started, the identity `recv_response` reports, and the route of the transport `into_transport` yields;
- whether the channel accepted a received packet (`recvOk`);
- the result of checking a peer-connect request;
- the decoded broker response;
- the header encoding of `Stream::message` (`encodeHeader`).

Socket addresses, identities, secrets and handshake states are abstract types.

## Model

| member | source | states |
|---|---|---|
| Bytes.FromBigEndianOfBigEndian | src/packet.rs:35-36 | reading back a `width`-byte big-endian number gives the number |
| Bytes.BigEndianOfFromBigEndian | src/packet.rs:58-64 | writing the value of a big-endian byte string gives back the bytes |
| Bytes.ClearLastBit | src/packet.rs:34-35 | clearing bit 0 of the last route byte clears bit 0 of the route number and leaves it even |
| Packet.PacketBytes | src/packet.rs:53-67 | the encoding of a packet is 20 header bytes followed by exactly its payload |
| Packet.ParsePacket | src/packet.rs:22-51 | decode succeeds iff the input has at least 20 bytes, version 8 and three `0xff` reserved bytes. A short input is `Truncated`. On success, the route is even, the direction is bit 0 of byte 11, and the payload is everything after byte 20 |
| Packet.Decode | src/packet.rs:22-51 | the cursor-based decoder returns exactly `ParsePacket` of its input, errors included |
| Packet.Encode | src/packet.rs:53-67 | the append-based encoder, which sets or clears the direction bit in place, yields `PacketBytes(p)`, of length 20 + payload length |
| Packet.PacketBytesLayout | src/packet.rs:53-67 | the encoding starts with the version and `ff ff ff`. Bit 0 of byte 11 is set iff the direction is Responder2Initiator. The payload follows byte 20 |
| Packet.DecodeEncode | src/packet.rs:22-67 | decoding an encoded version-8 packet gives it back, with the route's low bit cleared |
| Packet.DecodeEncodeEvenRoute | src/packet.rs:22-67 | an even route and version 8 survive `decode(encode(p))` exactly |
| Packet.EncodeDecode | src/packet.rs:22-67 | every byte string that decodes is exactly the encoding of its decoded packet |
| Packet.RouteBytesRestored | src/packet.rs:27-35 | re-encoding the route and direction read from eight route bytes gives those bytes back |
| Packet.BadHeaderRejected | src/packet.rs:38-40 | a full-length header with a wrong version byte or any wrong reserved byte is refused as `InvalidVersion` of its version byte |
| Packet.DecodeWithPayloadVector | src/packet.rs:70-79 | the `decode_with_payload` vector decodes, and its payload is `f0 0d` |
| Packet.DecodeInvalidVectors | src/packet.rs:81-86 | the empty, all-zero and all-`0x08` inputs of `decode_invalid_packets` are refused |
| Frames.Len | src/packet.rs:138-148 | every frame takes at least one byte, and exactly one byte iff it is a Ping or a Disconnect |
| Frames.IsPing | src/packet.rs:150-155 | a Ping is one byte long and is not an Ack |
| Frames.IsAck | src/packet.rs:156-161 | an Ack is 5 bytes plus 8 per acknowledgement long |
| Frames.Order | src/packet.rs:163-170 | a Header is always order 1, the first frame of its stream |
| Frames.Insert | src/packet.rs:199-200 | inserting grows the sequence by one and puts the smaller of `x` and the old head first |
| Frames.InsertSorted | src/packet.rs:199-200 | inserting into an ascending sequence keeps it ascending |
| Frames.SortAscSorted | src/packet.rs:199-200 | the sorted acknowledgements are ascending |
| Frames.SortAscPermutes | src/packet.rs:199-200 | sorting neither drops nor invents an acknowledgement (same multiset) |
| Frames.SortAsc | src/packet.rs:199-200 | sorting keeps the number of acknowledgements (ordering and permutation are the two lemmas above) |
| Frames.FrameBytes | src/packet.rs:138-148 | every encoding has exactly `Len(f)` bytes |
| Frames.Encode | src/packet.rs:172-239 | the field-by-field writer produces `FrameBytes(f)` and returns a byte count equal to both the bytes written and `len()` |
| Frames.WriteAcks | src/packet.rs:201-203 | the acknowledgement loop appends each number as eight big-endian bytes |
| Frames.ParseOne | src/packet.rs:245-305 | one decoder step that succeeds consumes at least one byte and no more than the input holds |
| Frames.ParseAck | src/packet.rs:248-256 | a successful read yields an Ack and consumes exactly its `len()` |
| Frames.ParseHeader | src/packet.rs:263-269 | a successful read yields a Header and consumes exactly its `len()` |
| Frames.ParseStream | src/packet.rs:270-281 | a successful read yields a Stream frame and consumes exactly its `len()` |
| Frames.ParseClose | src/packet.rs:282-286 | a successful read yields a Close frame and consumes exactly its `len()` |
| Frames.ParseConfig | src/packet.rs:287-304 | a successful read yields a Config frame and consumes at least its `len()`, more when the data block carries extra bytes |
| Frames.ParseFrames | src/packet.rs:241-308 | empty input decodes to no frames, and a successful decode never yields more frames than there are bytes |
| Frames.ParseFramesStep | src/packet.rs:244-307 | after a frame reads successfully, decoding goes on right behind it, and that frame comes first in the result |
| Frames.ParseFramesError | src/packet.rs:244-307 | a frame that fails to read makes the whole decode fail with its error |
| Frames.DecodeAck | src/packet.rs:248-256 | the Ack arm with its read loop gives `ParseAck`. A count larger than the remaining data is `Truncated` |
| Frames.DecodeConfig | src/packet.rs:287-304 | the Config arm gives `ParseConfig`. The timeout needs two data bytes when flag bit 7 is set, and extra data is skipped |
| Frames.DecodeOne | src/packet.rs:245-305 | the loop body's dispatch on the type byte gives `ParseOne` |
| Frames.Decode | src/packet.rs:241-308 | the decoder loop returns exactly `ParseFrames` of its input |
| FrameProperties.Normalize | src/packet.rs:194-204 | Acks come back with the delay truncated to 16 bits and the same number of acknowledgements. Every other frame comes back unchanged |
| FrameProperties.NormalizeAck | src/packet.rs:194-204 | a normalised Ack's list is ascending and holds the same acknowledgements as the original |
| FrameProperties.ReadU64sOfBytes | src/packet.rs:251-254 | reading `n` numbers back from their encoding gives them, whatever follows |
| FrameProperties.ConfigFlagBits | src/packet.rs:216-236 | flag bit 7 is set iff a timeout is present, and bit 6 iff sleeping |
| FrameProperties.TypeByte | src/packet.rs:150-161 | every encoding starts with a type byte in 1..7. `is_ping` holds iff that byte is 2, and `is_ack` iff it is 1 |
| FrameProperties.OrderOnWire | src/packet.rs:163-170 | `order()` of a Stream or Close frame is the 64-bit number at bytes 5..13 of its encoding |
| FrameProperties.ParseOneEncoded | src/packet.rs:172-305 | one decoder step over an encoded frame, whatever follows it, reads `Len(f)` bytes and gives `Normalize(f)` |
| FrameProperties.ParseFramesAppend | src/packet.rs:244-307 | encoded frames followed by any bytes decode to those frames in order, then to what the rest decodes to (or the rest's error) |
| FrameProperties.DecodeEncodeAll | src/packet.rs:172-308 | a sequence of encoded frames decodes to their normal forms, in order |
| FrameProperties.DecodeEncodeExact | src/packet.rs:172-308 | frames already in normal form, including every non-Ack frame and every Config, survive the round trip exactly |
| FrameProperties.AckNormalForm | src/packet.rs:194-204 | an Ack survives the round trip exactly iff its delay fits 16 bits and its list is ascending |
| FrameProperties.SortedUnique | src/packet.rs:199-200 | two ascending sequences with the same elements are equal |
| FrameProperties.PaddingSkipped | src/packet.rs:247 | any run of `0x00` bytes is skipped |
| FrameProperties.InvalidTypeRejected | src/packet.rs:305 | a type byte of `0x08` or above after whole frames fails the decode with `InvalidFrameType` of that byte |
| FrameProperties.TruncatedRejected | src/packet.rs:248-304 | a frame cut short anywhere after its type byte fails the decode with `Truncated` |
| FrameProperties.TruncatedOne | src/packet.rs:248-304 | one decoder step over a strict, non-empty prefix of an encoding is `Truncated` |
| FrameProperties.ConfigFrameVectors | src/packet.rs:311-352 | the two `config_frames` vectors encode to `07 00 00 00` and `07 c0 00 02 05 0c` and decode back |
| FrameProperties.EncodeStreamVector | src/packet.rs:354-371 | the Stream frame of `encode_frame` encodes to the pinned 20 bytes |
| FrameProperties.EncodeAckVector | src/packet.rs:373-384 | the Ack frame of `encode_frame` has 13 bytes and encodes to the pinned bytes |
| FrameProperties.DecodeFrameVector | src/packet.rs:387-416 | the `decode_frame` input decodes to exactly the Stream frame and the Ack frame, with the acknowledgements kept in wire order |
| Discovery.CategoryOf | src/endpoint.rs:309-316 | a known wire category value becomes the category of that value, never Invalid |
| Discovery.Bump | src/endpoint.rs:488-494 | the sender gains exactly one reception. An unknown sender enters as Internet with one reception. Every other address is untouched |
| Discovery.BestAddress | src/endpoint.rs:496-511 | the scan, in any visiting order, picks an address heard from whose category value is minimal among those heard from |
| Discovery.CategoryIn | src/endpoint.rs:534-535 | an address without a recorded count counts as Internet |
| Discovery.Migrate | src/endpoint.rs:532-544 | the channel moves to the sender iff the receive succeeded, the sender is another address and the current category value is not smaller. Otherwise the address stays |
| Discovery.ReceiveStep | src/endpoint.rs:486-547 | the count, settle scan and migration for one packet give `Receive` of the old mode, for a best-address pick of the scan |
| Discovery.Receive | src/endpoint.rs:486-547 | an established channel stays established with its counts. A discovering channel either keeps discovering with the bumped counts or becomes established with them kept as `previous`. The address it ends on is the sender, the old address or the scan pick |
| Discovery.SettlesAtFifth | src/endpoint.rs:495-521 | a discovering channel settles on exactly the packet that brings its sender to five receptions. Otherwise it keeps discovering, with the bumped counts |
| Discovery.ReceiveBounded | src/endpoint.rs:488-521 | discovering counts stay below five |
| Discovery.SettledOnBest | src/endpoint.rs:511-544 | settling leaves the channel established on a best address, with the counts kept as `previous` |
| Discovery.OfferedPathsKeys | src/endpoint.rs:307-318 | the offered path map holds exactly the offered addresses, each with count 0 and a category other than Invalid |
| Discovery.OfferedPaths | src/endpoint.rs:307-318 | every entry of the offered path map has count 0 and a category other than Invalid |
| Discovery.OfferedPathsLastWins | src/endpoint.rs:307-318 | an address's entry has the category of the last path that offers it |
| Discovery.BuildPaths | src/endpoint.rs:307-318 | the insertion loop builds `OfferedPaths` |
| Endpoint.StreamFrame | src/endpoint.rs:661-733 | on the broker route the stream leaves the incoming set, and elsewhere the set is unchanged. Every other outgoing connect is untouched |
| Endpoint.CloseFrame | src/endpoint.rs:734-749 | a close raises an event iff it is on the broker route for a stream an outgoing connect waits on. It either forgets that connect or changes nothing |
| Endpoint.ConnectCompletes | src/endpoint.rs:263-266 | a connect registered on a stream is advanced by the first frame and completed by the second. The second yields `OutgoingConnect` with the response and the handshake state for the target identity, and removes exactly that entry |
| Endpoint.IncomingReportedOnce | src/endpoint.rs:622-627 | an incoming connect is reported only on the broker route, while publishing, for an announced stream, and never twice for one announcement |
| Endpoint.CloseAborts | src/endpoint.rs:734-748 | closing a stream an outgoing connect waits on reports it with neither response nor handshake and removes only that entry. A later frame on the stream completes no connect |
| Endpoint.Candidates | src/endpoint.rs:307-323 | the broker's established address is always present as BrokerOrigin with count 0, and every other offered entry is kept as offered |
| Endpoint.CandidatesContent | src/endpoint.rs:307-323 | the candidates are the offered addresses plus the broker's established address. That address is BrokerOrigin whatever was offered for it, other entries keep their last offered category, and all counts are below five |
| Endpoint.AcceptCheck | src/endpoint.rs:284-297 | the response is accepted iff it and the requester are present, `ok` is true, the handshake packet decodes and `into_transport` succeeds. Each failure gives its own error: `OutgoingConnectFailed` for a missing part or `ok == false`, then `InvalidHandshakePacket`, then `HandshakeFailed` |
| Endpoint.Endpoint.BrokerAddress | src/endpoint.rs:319-323 | the broker address is known iff the broker channel exists and is established, and it is that channel's address |
| Endpoint.Endpoint.constructor | src/endpoint.rs:149-183 | a new endpoint has only the broker channel, established on the given address with no counts. It has no outstanding connects and no publish secret |
| Endpoint.Endpoint.Publish | src/endpoint.rs:206-209 | a publish secret is generated only when none exists |
| Endpoint.Endpoint.Connect | src/endpoint.rs:229-269 | if the handshake could be started, the broker stream is registered as `WaitingForHeaders` for the target. Otherwise the call fails and nothing changes |
| Endpoint.Endpoint.DiscoveryPaths | src/endpoint.rs:307-323 | the path map built is `Candidates` of the offered paths and the broker address |
| Endpoint.Endpoint.AcceptOutgoing | src/endpoint.rs:284-338 | it fails exactly when `AcceptCheck` fails, with the same error and with the channels unchanged. On success it returns the response's route and installs a discovering channel there over the candidate paths |
| Endpoint.Endpoint.AcceptIncoming | src/endpoint.rs:340-374 | installs a discovering channel on the requested route over the candidate paths |
| Endpoint.Endpoint.ReceiveDatagram | src/endpoint.rs:483-549 | an undecodable packet or an unknown route changes nothing. Otherwise only that route's address mode changes, to `Receive` for a scan pick, and all counts stay below five |
| Endpoint.Endpoint.OnReceiveHeader | src/endpoint.rs:618-627 | a peer-connect header on the broker route adds the stream to the incoming set. Nothing else changes |
| Endpoint.Endpoint.OnReceiveStream | src/endpoint.rs:661-733 | the new incoming set, outgoing map and event are those of `StreamFrame` |
| Endpoint.Endpoint.OnClose | src/endpoint.rs:734-749 | the new outgoing map and event are those of `CloseFrame` |
| Endpoint.Endpoint.OnDisconnect | src/endpoint.rs:750-795 | the channel is removed, and its identity is reported if it existed |
| Endpoint.ChunksFlatten | src/endpoint.rs:57-59 | the chunks concatenate back to the message |
| Endpoint.Chunks | src/endpoint.rs:57 | an empty message has no chunks, and every chunk holds 1 to 600 bytes |
| Endpoint.ChunkAt | src/endpoint.rs:57-59 | there are ⌈len/600⌉ chunks, and chunk i is bytes 600·i up to 600·(i+1) or the end |
| Endpoint.ChunkSizes | src/endpoint.rs:57-59 | every chunk holds 1 to 600 bytes, and all but the last hold exactly 600 |
| Endpoint.Stream.Send | src/endpoint.rs:37-42 | one frame is appended to what the stream has sent |
| Endpoint.Stream.Message | src/endpoint.rs:50-60 | the stream sends the header for the message length, then the message's 600-byte chunks in order |

## Left out

- The noise handshake (`initiate`, `recv_response`, `into_transport`, `send_response`) is not modelled. Its results are parameters: `responded` for `recv_response` and `transport` for `into_transport`.
- Protobuf and `Headers` encoding and decoding are not modelled:
  - `ProtoHeader` is the `encodeHeader` parameter.
  - The decoded `ConnectResponse` is the `response` parameter.
  - The `peer/connect` path test is the `peerConnectPath` flag.
  - The result of `peer_connect_request` is the `peer` parameter, where `None` means rejected.
- UDP sockets, `recv_from`/`send_to` and their errors, the osaka event loop and futures are not modelled. This includes which addresses a packet is sent to.
- `Channel` internals (`channel.rs` is not part of this model) are not modelled: `recv`, `progress`, `open` and `stream`, and stream-id allocation. Stream ids are inputs.
- The stream drivers, `newhandl`/`StreamFactory`, `open`, `reject`, `small_message` and the local-address list of `connect` and `accept_incomming` are not modelled, because they are I/O or driver plumbing.
- The `EndpointBuilder` DNS and retry loop, `src/subscriber.rs` and `src/lib.rs` are not modelled.
- HashMap iteration order: `Discovery.BestAddress` picks nondeterministically among the keys, so any best address may come out.
- Discovery.Category: the numeric values of `proto::path::Category` are taken as Invalid 0, Local 1, Internet 2, BrokerOrigin 3, which is the declaration order. The protobuf definition is not part of this model.
- Endpoint.AcceptCheck: a handshake response that `recv_response` rejects makes the source panic (its `unwrap`). The model excludes that case through `AcceptPanics` instead of returning an error. Only an `into_transport` failure is the ordinary `HandshakeFailed` error.
- Endpoint.Endpoint.AcceptOutgoing: the panics are excluded by `requires !AcceptPanics(...)` rather than modelled. They are a rejected handshake response, an identity or route mismatch after the handshake, and a path of unknown category (`unreachable!()`). `ipaddr.parse().unwrap()` is not modelled, because addresses are abstract.
- Endpoint.Endpoint.AcceptIncoming: two panics are excluded rather than modelled. A path of unknown category, which a peer can send, hits `unreachable!()`; `requires KnownCategories(q.paths)` rules that input out. The `send_response` `expect` panic is not modelled either. The response sent back is not modelled; only the channel installed is.
- Endpoint.StreamFrame: a frame on a stream an outgoing connect waits on advances the stage whatever its bytes. The source panics when `Headers::decode(&frame).unwrap()` or `ConnectResponse::decode(&frame).unwrap()` fails. The model does not decode frames, so those panics are not modelled. The same holds for `Endpoint.Endpoint.OnReceiveStream`.
- Endpoint.Endpoint.Connect: the `unwrap` on the broker channel becomes a precondition.
- Frames.Encode: the `assert!` bounds on payload and acknowledgement counts are the precondition `Encodable`. The encoder's I/O errors are not modelled.
- Frames.Order: the panic on unordered frames is the precondition `Ordered`.
- Frames.SortAsc: `sort_unstable` is modelled as an insertion sort on a sequence of values, not in place. Only its result matters on the wire.
- Discovery.Bump: counts are unbounded `nat`, so `usize` overflow is not modelled.
- Endpoint.Stream.Message: the `as u64` length cast is sound only below 2^64, and that is the precondition. The protobuf `encode` of the message itself is outside the model, so `b` is the already encoded message.
