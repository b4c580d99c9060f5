# A verified model of the umqtt client

The repository is a sans-IO, allocation-free MQTT 3.1.1 client stack. This project models its live part in Dafny and proves
what each layer promises, and what the layers promise together over whole runs.

- **Packet layer** (`wire`, `utf8`, `unicode`, `flags`, `cursor`, `streams`, `publish`, `outpublish`, `subscribe`,
  `unsubscribe`, `suback`, `connect`, `acks`, `packet`, `reproduce`, `layout`, `topic_iterator`). Packets are values with an
  encoding and a decoding, both functions on byte sequences. The source's readers and printers are methods over `Cursor`,
  `WriteCursor` and `BorrowedBuf` objects, with the same loops, back-patches and error exits, proved against those functions.
  Every printer says when it succeeds, which error it gives otherwise, what the buffer then holds, and that no other cell has
  changed. The main laws: printing and reading are inverse exactly for the packets that pass a check on their fields; a
  parser verdict is never revised by later bytes; a PUBLISH formatted in place, header last, is the ordinary encoding; the
  wire form of a list packet loses nothing; printing what was read reproduces the bytes exactly under a stated condition on
  them. `layout` tells the wire format in numbers, apart from the functions the other laws share: what every packet of every
  type prints as, cell by cell, and what every framed sequence of bytes reads as, every error included. `unicode` shows that
  the bytes accepted as text are exactly the encodings of lists of scalar values.
- **Session automaton** (`time`, `transport`, `session`). `TransportClient` as a class with the source's fields, and laws
  over arbitrary event histories: connected if and only if a successful CONNACK was parsed and nothing harmful happened
  since, one CONNACK per opening, errors are final, the keep-alive timer is the one the history calls for, in milliseconds.
- **Client** (`buffer`, `notification`, `platform`, `clientspec`, `nanoclient`, `frames`, `runs`, `replies`, `gating`,
  `traces`, `messages`, `progress`, `histories`, `clientloop`). `NanoClient` as a class over its two buffers, run against an
  environment that answers arbitrarily within what the `Platform` trait promises, so that timeouts expire only where one was
  given, and that keeps ghost records of the bytes it delivered and was handed, of every look at the clock and of every
  timeout. Each operation equals a function of the client's state and the environment's answers; a whole run is a sequence of
  calls folded with these functions. The main laws: conservation of received bytes, delivery in the order of the one-shot
  parse whatever the chunking, exactly one answer to each delivery in order (an acknowledgement where one is required, a
  PINGREQ for each ping request) and nothing else unasked, ping requests only with keep-alive, silence while disconnected,
  CONNECT first, what connecting and waiting report for every first packet and every last answer, that the CONNECT and the
  SUBSCRIBE sent read as what was asked for, and every answer told by the bytes of the packet it answers (`messages`), room
  before every read of either loop for packets that fit and only for those. The automaton's own laws hold of the automaton
  inside the client (`histories`). `ClientLoops.RunSession` ties the laws back to the object and to the environment's own
  records, which carry no tags.
- **Topic matcher** (`topics`). The two-iterator loop refines a definition on level lists, on which subsumption is shown to
  be reflexive, transitive, antisymmetric on valid filters, and complete up to two stated cases.

Flags are packed and masked with bit operators, as in the source, and tied to arithmetic in `flags`. Casts that drop bits
(`as u16`, `as u64`) are written out. Lengths are unbounded where the source has `usize`. Preconditions appear only where the
source would panic: five cells for in-place PUBLISH formatting, a first byte that is a whole character in `matches`.

`vectors` fixes concrete byte strings, most of them those of the repository's own tests.

## Where the code departs from its documentation

The model follows the code.

- `connect` documents that a CONNACK reporting an error may be returned (`src/nano_client.rs:302-303`). The automaton turns a
  refusal into a `Disconnected` notification (`src/transport_client.rs:151-154`), which `read_connack` reports as
  `UnexpectedPacket`. `Frames.ConnectVerdict` says what is returned for every first packet, in both directions, and
  `Frames.ConnAckArrives` evaluates it for every CONNACK. So the branch at `src/nano_client.rs:317-319` is never taken
  (`ClientGating.OnlyAcceptedConnAcks`).
- A CONNECT that does not fit the transmit buffer fails after the automaton has been opened (`src/nano_client.rs:309-314`), so
  the client still accepts writes and a ping can be the first packet on the wire (`ClientGating.PingBeforeConnect`).
- A subscription that cannot be formatted is an error of `connect_subscribe` after which the client stays connected, unlike
  after its other errors behind the CONNECT (`ClientGating.ConnectSubscribeFacts`).
- `next_notification` reads before it looks at the window (`src/nano_client.rs:382-393`). A packet that is already complete is
  reported if and only if that read brings a further byte; a timeout asks for a ping instead, and the end of the stream or an
  error ends the call (`ClientProgress.BufferedPacketWaitsForAByte`). So a packet can be received in full and lost: when it
  comes in one piece with the CONNACK and the peer then closes, it is never reported nor answered, not even a QoS 1 publish
  (`ClientProgress.PacketLostAtClose`), and connecting again starts from an empty window (`ClientProgress.LostForGood`).
- The size limit is compared with the remaining length, not with the frame (`src/packetview/mod.rs:177`). A packet within the
  limit can be longer than the window. It then keeps the client waiting until the next read is offered no room, and is never
  delivered; a packet arrives if and only if it fits (`ClientProgress.ArrivesIffItFits`), and runs reach that state
  (`ClientProgress.WindowCanClog`).
- Remaining lengths in more bytes than needed are accepted; flags without meaning, login fields announced and empty, and bytes
  behind the fields are dropped for CONNECT, CONNACK, PUBACK, PUBREC, PUBREL, PUBCOMP and the packets without a body.
  `Reproductions.ReproducedIff` says exactly when printing gives back the bytes that were read
  (`Vectors.PaddedLengthIsAccepted` and `Vectors.TrailingByteIsDropped` are two inputs for which it does not).
- A SUBSCRIBE without filters is printed and cannot be read (`Vectors.EmptySubscribeDoesNotReadBack`).
- Strings longer than 65535 bytes are printed with a truncated length, a V5 CONNECT is printed and never read, a packet id is
  lost at QoS 0 and an empty login is lost: `Packets.RoundTripIff` and `Packets.NothingLostIff` say exactly when.
- Hand-built SUBACK bytes that are not reason codes make the declared length exceed what is printed
  (`Packets.LengthHonestIff`).
- A filter is not matched against `+/#` when it is `#`, although the two cover the same topics (`Topics.SubsumptionIff`).

## Model

| member | source | states |
|---|---|---|
| Wire.QosOf | src/packetview/mod.rs:65-72 | inverse of the number of a quality of service; fails exactly above 2, with that number |
| Wire.Length | src/packetview/mod.rs:210-247 | the shifting loop computes the recursive base-128 decoding, with the same errors at the same byte |
| Wire.VarIntDecodes | src/packetview/mod.rs:210-247 | the printed length followed by anything decodes to the number and the byte count, at every position that can still hold it |
| Wire.VarIntSize | src/packetview/mod.rs:311-336 | the number of printed bytes steps at 128, 16384 and 2097152 |
| Wire.DecodedLengthBound | src/packetview/mod.rs:220-246 | every accepted length is at most 268435455 and uses no fewer bytes than the printer would |
| Wire.DecodeLengthStable | src/packetview/mod.rs:210-247 | a verdict on a length other than "one more byte" does not change when bytes follow |
| Wire.FrameChecks | src/packetview/mod.rs:169-189 | a framed body passes the check within the limit, and the frame cut out of the stream is the one that was printed |
| Wire.CheckStable | src/packetview/mod.rs:169-205 | framing never revises a verdict, and asks for no more bytes than are missing |
| Wire.BytesRoundTrip | src/packetview/mod.rs:276-303 | length-prefixed bytes of at most 65535 come back and the rest of the stream is left |
| Wire.StringRoundTrip | src/packetview/mod.rs:291-308 | the same for strings, which pass the UTF-8 validation |
| Unicode.ValidIff | src/packetview/mod.rs:291-297 | what passes the UTF-8 validation is exactly what encodes some list of Unicode scalar values, in one to four bytes each (section 3 of RFC 3629) |
| Streams.ReadU8 | src/packetview/mod.rs:254-260 | takes the first byte and moves the cursor, or reports a malformed packet and leaves it |
| Streams.ReadU16 | src/packetview/mod.rs:267-273 | takes a big-endian word, or reports a malformed packet and leaves the cursor |
| Streams.ReadMqttBytes | src/packetview/mod.rs:276-288 | cursor-advancing reader refines the parse of length-prefixed bytes |
| Streams.ReadMqttString | src/packetview/mod.rs:291-297 | the same for strings, with invalid UTF-8 as its own error |
| Streams.WriteMqttBytes | src/packetview/mod.rs:300-308 | appends the truncated length and all the bytes, or reports that the buffer is too small, exactly when it is |
| Streams.WriteRemainingLength | src/packetview/mod.rs:311-336 | the digit loop appends exactly the base-128 encoding and returns its size; too long and too little room are told apart |
| Cursors.Cursor.Advance | src/packetview/cursor.rs:11-13 | drops the first bytes of what is left |
| Cursors.Cursor.TakeU8 | src/packetview/cursor.rs:15-19 | returns the first byte and drops it |
| Cursors.Cursor.TakeU16 | src/packetview/cursor.rs:21-25 | returns the word whose big-endian bytes come first and drops them |
| Cursors.Cursor.SplitTo | src/packetview/cursor.rs:27-31 | splits what is left without losing a byte |
| Cursors.WriteCursor.PutU8 | src/packetview/cursor.rs:75-83 | appends one byte exactly if a cell is free; cells outside the written part keep their first content |
| Cursors.WriteCursor.PutU16 | src/packetview/cursor.rs:85-92 | appends two big-endian bytes or nothing |
| Cursors.WriteCursor.PutSlice | src/packetview/cursor.rs:94-103 | appends the whole slice or nothing |
| Cursors.WriteCursor.Patch | src/packetview/cursor.rs:121-125 | overwrites one written byte and no other |
| Cursors.WriteCursor.FillsBuffer | src/packetview/cursor.rs:41-52 | after any writes the buffer is what was written followed by its old content |
| Cursors.BorrowedBuf.AddSlice | src/packetview/borrowed_buf.rs:34-43 | appends the whole slice or nothing; cells outside the contents keep what they held |
| Cursors.BorrowedBuf.PatchU16 | src/packetview/borrowed_buf.rs:54-72 | overwrites two bytes of the contents and nothing else |
| Flags.MaskedQos | src/packetview/publish.rs:44 | masking and shifting a QoS field reads two binary digits of the byte as a number |
| Flags.PublishFlags | src/packetview/publish.rs:88-91 | the or-ed first byte is the sum of its fields |
| Flags.MaskPublish | src/packetview/publish.rs:44-46 | the masks read the QoS digits, DUP and RETAIN |
| Flags.PublishByte1Reads | src/packetview/publish.rs:44-91 | reading the first byte of a PUBLISH gives back packet type, QoS, DUP and RETAIN for every combination |
| Flags.ConnectFlagsByte | src/packetview/connect.rs:235-253 | the flags or-ed together have disjoint bits: the byte is the sum of the fields' weights |
| Flags.MaskConnect | src/packetview/connect.rs:18-98 | the masks used while reading a CONNECT read its flag digits |
| Flags.ConnectFlagsRead | src/packetview/connect.rs:17-253 | for every combination of clean session, will, QoS, retain, user name and password, the flags read back as they were packed |
| Publishes.ReadPublish | src/packetview/publish.rs:43-73 | the cursor-advancing reader computes the decoding of the body, errors included |
| Publishes.WritePublish | src/packetview/publish.rs:84-108 | succeeds exactly if the packet fits, is not too long and has the packet id it needs; the error otherwise; the buffer then starts with the encoding and nothing behind it changed |
| Publishes.PublishRoundTrip | src/packetview/publish.rs:43-108 | a printed body decodes to the same publish, with packet id 0 at QoS 0; the declared length counts it |
| Publishes.DecodedPublish | src/packetview/publish.rs:43-108 | an accepted body is exactly what would be printed for the result |
| OutPublishes.RunFormatter | src/packetview/publish.rs:143-182 | a closure's chunks are appended in order, the first one that does not fit ends it |
| OutPublishes.FormatsIff | src/packetview/publish.rs:192-273 | in-place formatting succeeds if and only if the closures do, the fields are representable and five cells plus the remaining length fit |
| OutPublishes.FormatVerdict | src/packetview/publish.rs:192-261 | every outcome of in-place formatting in numbers, in the order of the steps: which error, or the remaining length |
| OutPublishes.WriteTopic | src/packetview/publish.rs:192-210 | reserve, append, patch: the length-prefixed topic for any split into chunks, or the first error |
| OutPublishes.WriteVarHeaderAndPayload | src/packetview/publish.rs:211-237 | the body of the ordinary encoding, or the error of the first step that fails |
| OutPublishes.JustifyHeader | src/packetview/publish.rs:262-268 | a header of two to five bytes ends right in front of the body, and no other reserved cell changes |
| OutPublishes.WriteOutPublish | src/packetview/publish.rs:238-273 | the returned slice is the ordinary PUBLISH encoding of the concatenated chunks, for every header size; success condition, error, and no other cell changed |
| OutPublishes.OutPublishNeedsMoreRoom | src/packetview/publish.rs:84-273 | whatever is formatted in place the plain printer can print too, in the same bytes and with less room unless the length takes four bytes |
| Subscribes.BytesIterator.Next | src/packetview/subscribe.rs:9-27 | yields the next filter of the wire form or stays where it is |
| Subscribes.BytesIterator.Count | src/packetview/subscribe.rs:113-119 | counting drains the iterator up to the bytes that form no filter |
| Subscribes.StorageIter.Next | src/packetview/subscribe.rs:66-80 | one item of the list a storage denotes, in either representation |
| Subscribes.StorageEquals | src/packetview/subscribe.rs:60-64 | two storages compare equal if and only if they denote the same list, whatever their representation |
| Subscribes.WireFiltersOfEncoding | src/packetview/subscribe.rs:9-27 | iterating over an encoded list yields the list and leaves nothing |
| Subscribes.WireFiltersFaithful | src/packetview/subscribe.rs:9-27 | for any bytes at all, the encodings of the yielded items followed by the leftover are those bytes, and the leftover does not start with a filter |
| Subscribes.ReadSubscribe | src/packetview/subscribe.rs:106-127 | accepts exactly the bodies whose iteration yields something and leaves nothing, with the two errors told apart |
| Subscribes.WriteSubscribe | src/packetview/subscribe.rs:129-147 | prints the encoding of the denoted list from either representation, exactly when it fits |
| Subscribes.SubscribeRoundTrip | src/packetview/subscribe.rs:97-147 | a printed non-empty list of short paths reads back as the same list; the declared length counts it |
| Subscribes.DecodedSubscribe | src/packetview/subscribe.rs:106-147 | an accepted packet is a non-empty list, and re-printing reproduces its body byte for byte |
| Subscribes.AddStr | src/packetview/subscribe.rs:153-161 | appends one encoded filter, with both error cases; what was there before stays |
| Subscribes.AddSeparated | src/packetview/subscribe.rs:163-186 | appends the joined parts with the length patched in; its three outcomes in terms of sizes; what was there before stays |
| Subscribes.JoinConcat | src/packetview/subscribe.rs:163-186 | the joined text of two lists is their joined texts with one separator in between, and of one part that part |
| Unsubscribes.WireBytesIter.Next | src/packetview/unsubscribe.rs:6-15 | yields the next topic of the wire form or stays where it is |
| Unsubscribes.StorageIterator.Next | src/packetview/unsubscribe.rs:17-30 | one item of the denoted list, in either representation |
| Unsubscribes.StorageEquals | src/packetview/unsubscribe.rs:57-61 | equal if and only if the same list is denoted |
| Unsubscribes.WireTopicsOfEncoding | src/packetview/unsubscribe.rs:6-15 | iterating over an encoded list yields the list, and the reader accepts it |
| Unsubscribes.WireTopicsFaithful | src/packetview/unsubscribe.rs:6-94 | accepted bytes are exactly the encodings of the yielded topics |
| Unsubscribes.ReadUnsubscribe | src/packetview/unsubscribe.rs:76-94 | the validating loop accepts exactly sequences of well-formed topics, with the error of the first bad one |
| Unsubscribes.WriteUnsubscribe | src/packetview/unsubscribe.rs:96-108 | prints the encoding of the denoted list, exactly when it fits |
| Unsubscribes.UnsubscribeRoundTrip | src/packetview/unsubscribe.rs:71-108 | a printed list of short topics reads back as the same list |
| Unsubscribes.DecodedUnsubscribe | src/packetview/unsubscribe.rs:76-108 | re-printing what was accepted reproduces its body byte for byte |
| SubAcks.ReasonOf | src/packetview/suback.rs:132-146 | an accepted byte is the one its reason code prints as |
| SubAcks.StorageIter.Next | src/packetview/suback.rs:7-28 | one code of the denoted list; the first invalid byte ends it |
| SubAcks.StorageEquals | src/packetview/suback.rs:62-66 | equal if and only if the same list is denoted |
| SubAcks.WireCodesOfEncoding | src/packetview/suback.rs:7-13 | iterating over encoded codes yields them, and they all pass the check |
| SubAcks.WireCodesFaithful | src/packetview/suback.rs:7-50 | all bytes are codes if and only if the iteration is as long as the bytes, and then it re-encodes to them |
| SubAcks.ReadSubAck | src/packetview/suback.rs:87-106 | accepts exactly non-empty bodies of valid codes, with the error of the first invalid one |
| SubAcks.WriteSubAck | src/packetview/suback.rs:108-123 | success, error and bytes in terms of the declared length, also where that is not the printed one |
| SubAcks.SubAckRoundTrip | src/packetview/suback.rs:83-123 | a printed non-empty list of codes reads back as the same list |
| SubAcks.DecodedSubAck | src/packetview/suback.rs:87-123 | re-printing what was accepted reproduces its body byte for byte |
| Connects.ReadWill | src/packetview/connect.rs:84-104 | a will exactly if its flag is set; stray will flags without it are malformed |
| Connects.ReadLogin | src/packetview/connect.rs:17-33 | user name and password by their flags; both empty is no login |
| Connects.ReadConnect | src/packetview/connect.rs:166-200 | the reader computes the decoding of the body, with name and level errors in the order of the code |
| Connects.WriteWill | src/packetview/connect.rs:112-123 | appends topic and message and returns the will's flag bits |
| Connects.WriteLogin | src/packetview/connect.rs:49-62 | appends the non-empty fields and returns their flag bits |
| Connects.WriteTail | src/packetview/connect.rs:235-255 | placeholder, payload, patch: what is printed from the flags byte on carries the final flags, and the patch changes that byte only |
| Connects.WriteConnect | src/packetview/connect.rs:223-256 | succeeds exactly if the packet fits and is not too long; the buffer then starts with the encoding and nothing behind it changed |
| Connects.WillRoundTrip | src/packetview/connect.rs:84-123 | a printed will reads back under its own flags |
| Connects.LoginRoundTrip | src/packetview/connect.rs:17-62 | a printed login reads back under its own flags, an empty one as none |
| Connects.ConnectRoundTrip | src/packetview/connect.rs:166-256 | a printed V4 CONNECT with short fields reads back, up to an empty login |
| Connects.DecodedConnect | src/packetview/connect.rs:166-200 | what is accepted is V4 with short fields, without empty login, and never prints longer than it was read |
| Connects.AcceptedConnectIff | src/packetview/connect.rs:17-200 | a body is accepted as a given CONNECT if and only if it is the name, level 4, a flags byte that tells the truth about the fields, and those fields, with anything behind them |
| Acks.ReadConnAck | src/packetview/connack.rs:56-72 | the session flag and one of six codes, or the error |
| Acks.WriteConnAck | src/packetview/connack.rs:74-84 | four bytes exactly if they fit |
| Acks.ConnAckRoundTrip | src/packetview/connack.rs:23-84 | a printed CONNACK reads back for every code |
| Acks.ReadId | src/packetview/puback.rs:14-33 | packet id of PUBACK, PUBREC, PUBREL and PUBCOMP, whatever follows it |
| Acks.ReadUnsubAck | src/packetview/unsuback.rs:15-27 | packet id if the remaining length is exactly two |
| Acks.WriteId | src/packetview/puback.rs:35-41 | a four-byte acknowledgement exactly if it fits |
| Acks.WriteUnsubAck | src/packetview/unsuback.rs:29-34 | the same for UNSUBACK |
| Acks.WriteEmpty | src/packetview/ping.rs:8-12 | the two-byte packets without body |
| Packets.ReadPacket | src/packetview/packet.rs:69-76 | check, cut, dispatch: computes the decoding of the next packet of a stream and the bytes it takes |
| Packets.PrefixStability | src/packetview/packet.rs:69-76 | a verdict other than "need more data" is unchanged by any extension, and with fewer bytes than asked for the verdict is still "need more data" |
| Packets.PrintersEncode | src/packetview/packet.rs:15-31 | the encodings of the single printers are the one encoding all laws speak about |
| Packets.LengthHonestIff | src/packetview/suback.rs:44-50 | the declared length counts the body, except for exactly two kinds of hand-built packets |
| Packets.PrintRead | src/packetview/packet.rs:33-76 | a printed representable packet of any type, followed by any bytes, reads back in normal form and takes exactly its own bytes |
| Packets.RoundTripIff | src/packetview/packet.rs:33-76 | a packet round trips if and only if it passes a check on its fields |
| Packets.NothingLostIff | src/packetview/publish.rs:54-57 | what comes back equals the packet except for a packet id at QoS 0 and an empty login |
| Packets.DecodedIsRepresentable | src/packetview/packet.rs:33-76 | everything the reader accepts passes that check and is in normal form |
| Packets.ReadPrintRead | src/packetview/packet.rs:33-76 | reading, printing and reading again changes nothing |
| Layouts.LengthLayout | src/packetview/mod.rs:311-336 | the printed length of every number up to 268435455, digit by digit |
| Layouts.FieldLayout | src/packetview/mod.rs:300-308 | a field is its length modulo 65536, high byte first, and all its bytes |
| Layouts.EmptyLayouts | src/packetview/ping.rs:7-23 | PINGREQ, PINGRESP and DISCONNECT are `C0 00`, `D0 00` and `E0 00` |
| Layouts.IdLayouts | src/packetview/puback.rs:35-41 | PUBACK, PUBREC, PUBREL, PUBCOMP and UNSUBACK for every id, cell by cell |
| Layouts.ConnAckLayout | src/packetview/connack.rs:74-84 | CONNACK for both session flags and all six codes, cell by cell |
| Layouts.FixedPrintersEncode | src/packetview/unsuback.rs:29-34 | what `WriteConnAck`, `WriteId`, `WriteUnsubAck` and `WriteEmpty` fill the buffer with is the one encoding all laws speak about |
| Layouts.PublishLayout | src/packetview/publish.rs:75-108 | PUBLISH for every combination of flags, ids and fields, printable or not |
| Layouts.SubscribeLayout | src/packetview/subscribe.rs:129-147 | SUBSCRIBE: first byte `82`, length, id, filters |
| Layouts.FiltersLayout | src/packetview/subscribe.rs:206-210 | a filter is its path as a field and 0, 1 or 2; filters follow each other in order |
| Layouts.UnsubscribeLayout | src/packetview/unsubscribe.rs:96-108 | UNSUBSCRIBE: first byte `A2`, length, id, topics |
| Layouts.TopicsLayout | src/packetview/unsubscribe.rs:96-108 | topics are fields, one after the other in order |
| Layouts.SubAckLayout | src/packetview/suback.rs:108-123 | SUBACK: first byte `90`, length, id, and 0, 1, 2 or 128 for each code |
| Layouts.ConnectFlagsLayout | src/packetview/connect.rs:235-255 | the flags byte of every CONNECT as a sum of the weights its fields call for |
| Layouts.ConnectLayout | src/packetview/connect.rs:223-256 | CONNECT: first byte `10`, length, `00 04 4D 51 54 54`, level, flags, keep-alive and the fields in order |
| Layouts.HeaderVerdict | src/packetview/mod.rs:193-247 | the fixed header of any bytes, for every number of length bytes, with all its errors |
| Layouts.FramingVerdict | src/packetview/mod.rs:169-189 | when a packet is cut out of a stream, and which error it is otherwise: the header's, the size limit, or exactly the missing bytes |
| Layouts.MissingIsExact | src/packetview/mod.rs:181-186 | once the header has been read in full, the request for data goes down byte by byte and ends with exactly the bytes asked for |
| Layouts.TypeVerdict | src/packetview/packet.rs:34-66 | packet types 0 and 15 are invalid, types 12 to 14 read as PINGREQ, PINGRESP and DISCONNECT whatever their body, and no other packet may be empty |
| Layouts.KindVerdict | src/packetview/packet.rs:34-66 | the number of the packet type of everything that is accepted |
| Layouts.ConnAckVerdict | src/packetview/connack.rs:36-72 | for any body: the session flag, which number is which code, and the error for each other number |
| Layouts.IdVerdict | src/packetview/puback.rs:20-32 | for any body: the id of PUBACK, PUBREC, PUBREL, PUBCOMP and UNSUBACK, and when there is none |
| Layouts.FieldVerdict | src/packetview/mod.rs:276-297 | what any bytes read as when a field or a string is expected |
| Layouts.PublishVerdict | src/packetview/publish.rs:43-73 | what any first byte and any body read as when a PUBLISH is expected: every field, or the first of its five errors |
| Layouts.CodeVerdict | src/packetview/suback.rs:132-146 | which byte is which reason code |
| Layouts.SubAckVerdict | src/packetview/suback.rs:87-106 | for any body: id and codes, one for each byte, or the first byte that is none |
| Layouts.FilterVerdict | src/packetview/subscribe.rs:9-27 | for any bytes: the filter at the front of them, or none |
| Layouts.FiltersRead | src/packetview/subscribe.rs:9-27 | iterating takes the filters off the front of any bytes and stops where there is none |
| Layouts.SubscribeVerdict | src/packetview/subscribe.rs:106-127 | for any body: id and filters, or `EmptySubscription` exactly without a first filter, or a malformed packet exactly with bytes behind the filters |
| Layouts.UnsubscribeVerdict | src/packetview/unsubscribe.rs:76-94 | for any body: id and topics, or the error of the first one that does not read |
| Layouts.TopicsSplit | src/packetview/unsubscribe.rs:6-15 | any bytes are topics up to the first one that does not read, so the verdict covers every body |
| Layouts.WillVerdict | src/packetview/connect.rs:84-104 | what any bytes read as under any flags when a will is expected |
| Layouts.LoginVerdict | src/packetview/connect.rs:17-33 | what any bytes read as under any flags when a login is expected |
| Layouts.ConnectBodyVerdict | src/packetview/connect.rs:166-200 | what any body reads as when a CONNECT is expected: every field, or the first thing that is wrong |
| Layouts.FourBytesRead | src/transport_client.rs:119-124 | `20 02 x y` reads as a CONNACK for all `x` and `y` and whatever follows, and so do the acknowledgements with their ids |
| Layouts.TwoBytesRead | src/packetview/packet.rs:37-45 | what two bytes with length 0 read as, for every first byte and whatever follows |
| Reproductions.DigitsArePrintedIff | src/packetview/mod.rs:210-247 | the digits of an accepted length are those the printer writes if and only if there are no more of them than needed |
| Reproductions.BodyIff | src/packetview/packet.rs:33-66 | for every packet type, the exact bodies that printing gives back: always for the publish and the list packets, without ignored flags or bytes for the others |
| Reproductions.ConnectBodyIff | src/packetview/connect.rs:166-256 | a CONNECT body is given back if and only if its flags are those the fields call for and nothing follows the fields |
| Reproductions.ReproducedIff | src/packetview/packet.rs:33-76 | printing a packet gives back the bytes it was read from if and only if first byte, length of the length and body are the printed ones, each told from the bytes read |
| Reproductions.PublishReproducedIff | src/packetview/publish.rs:43-108 | for a PUBLISH only the length of the length matters |
| Transports.TransportClient.constructor | src/transport_client.rs:63-70 | starts disconnected, without keep-alive |
| Transports.TransportClient.OnTransportOpened | src/transport_client.rs:78-82 | new state after opening: waiting for CONNACK, keep-alive from the options, timer reset |
| Transports.TransportClient.OnPacketSent | src/transport_client.rs:92-96 | moves the timer only with keep-alive |
| Transports.TransportClient.OnTransportClosed | src/transport_client.rs:100-102 | disconnected, nothing else changed |
| Transports.TransportClient.OnBytesReceived | src/transport_client.rs:134-189 | new state and reply for each state and each parser verdict |
| Transports.TransportClient.PingIn | src/transport_client.rs:191-197 | time to the next ping, none without keep-alive |
| Transports.TransportClient.IsDisconnected | src/transport_client.rs:199-201 | whether the state is disconnected |
| Sessions.StateStep | src/transport_client.rs:78-189 | when one event leads into or keeps each of the two live states, in both directions |
| Sessions.ConnectedIff | src/transport_client.rs:134-189 | over every history: connected if and only if a successful CONNACK was parsed and since then there was no opening, no closing and no error |
| Sessions.WaitingIff | src/transport_client.rs:78-162 | waiting for a CONNACK if and only if the transport was opened and only silence followed |
| Sessions.AcceptNeedsOpen | src/transport_client.rs:140-155 | every successful CONNACK belongs to an opening with only silence in between |
| Sessions.OneConnAckPerOpening | src/transport_client.rs:147-155 | between two accepted CONNACKs there is an opening |
| Sessions.PacketsNeedAcceptance | src/transport_client.rs:138-189 | no packet is reported before the CONNACK, and the CONNACK only by being accepted |
| Sessions.ErrorsAreFinal | src/transport_client.rs:143-188 | after an error the client is disconnected until it is opened again |
| Sessions.KeepAliveHistory | src/transport_client.rs:78-96 | keep-alive and timer of every history, in terms of its last opening and last send |
| Sessions.PingIsDue | src/transport_client.rs:191-197 | the timer equals an independent definition on the history, in milliseconds: never, at once, or one saturated interval after the last send |
| Sessions.PingInSeconds | src/transport_client.rs:78-96 | in numbers, for every history: after the last send a ping is due in 1000 milliseconds for each second of the last opening, counted on a clock that ends at 2^64 - 1; at once before anything was sent; never for zero seconds |
| Sessions.NoPingBeforeOpening | src/transport_client.rs:63-70 | no ping is asked for before the first opening |
| Sessions.PingWithinInterval | src/transport_client.rs:191-197 | on a clock that does not run backwards a ping is never further away than 1000 milliseconds for each second of the last opening (section 3.1.2.10 of MQTT 3.1.1) |
| Buffers.Buffer.Reset | src/nano_client/buffer.rs:15-17 | empties the window |
| Buffers.Buffer.Advance | src/nano_client/buffer.rs:19-21 | takes the filled cells into the window, in order |
| Buffers.Buffer.UsedSlice | src/nano_client/buffer.rs:23-25 | the window |
| Buffers.Buffer.RemovePrefix | src/nano_client/buffer.rs:31-38 | shifts in place: the window without its first bytes, empty when more are dropped than are there; cells behind it keep their content |
| ClientNotifications.CompleteIsRequired | src/nano_client/notification.rs:67-119 | the default completion is the answer sections 4.3.2 and 4.3.3 of MQTT 3.1.1 require, and every completion drops exactly the notified packet, or nothing for a ping request |
| ClientNotifications.DefaultAnswers | src/nano_client/notification.rs:67-88 | which packet answers which notification by default: PUBACK at QoS 1, PUBREC at QoS 2, PUBCOMP for PUBREL, with their ids, and none otherwise |
| ClientNotifications.SilentCompletions | src/nano_client/notification.rs:90-119 | the other two completions answer no packet; `complete_no_pub_ack` answers exactly ping requests |
| Platforms.Platform.WriteAll | src/nano_client/platform.rs:18-21 | the environment accepts or refuses all the data; recorded |
| Platforms.Platform.Now | src/nano_client/platform.rs:46-49 | any time; recorded |
| Platforms.Platform.ReadSome | src/nano_client/platform.rs:22-45 | at most the free cells are filled, with anything; timeouts only if one was asked for; recorded |
| ClientSpec.NextLoopSnoc | src/nano_client.rs:382-393 | an operation that waits continues from its state with the next answer, so splitting the answers differently changes nothing |
| ClientSpec.TimedReadsAt | src/nano_client.rs:382-387 | read by read: one look at the clock and then a read that is given the time to the next ping by that look |
| ClientSpec.UntimedReadsAt | src/nano_client.rs:206-207 | read by read: no timeout while connecting |
| ClientSpec.SubscribeInTwoParts | src/nano_client.rs:228-266 | header write and payload write together are the encoding of the SUBSCRIBE with packet id 1 and the formatted filters |
| ClientSpec.SeparatedIsJoined | src/packetview/subscribe.rs:153-186 | formatting the parts adds the filter that `add_str` adds for the joined text and succeeds in exactly the same rooms, the empty list included; exactly when the two errors differ |
| ClientSpec.JoiningFirstIsTheSame | src/packetview/subscribe.rs:153-186 | a whole subscription can be joined beforehand: same filters, same success |
| ClientSpec.SubscriptionReadsBackIff | src/nano_client.rs:228-266 | what was sent round trips if and only if a filter was added |
| ClientSpec.OpsOutcomeIff | src/packetview/subscribe.rs:153-186 | all operations of a subscription succeed if and only if every path is short enough and all filters fit together |
| ClientSpec.SubscriptionVerdict | src/nano_client.rs:238-250 | when a subscription can be sent, in numbers, and which error takes precedence when it cannot |
| NanoClients.NanoClient.constructor | src/nano_client.rs:280-286 | disconnected, empty window, size limit from the receive buffer |
| NanoClients.NanoClient.WriteBuffer | src/nano_client.rs:156-178 | nothing is handed over while disconnected; a refused write disconnects; the environment's record grows by exactly this attempt |
| NanoClients.NanoClient.SendFixed | src/nano_client.rs:450-513 | PINGREQ, PUBACK, PUBREC or PUBCOMP is printed into the transmit buffer and handed over, or does not fit |
| NanoClients.NanoClient.SendPublish | src/nano_client.rs:532-550 | the slice handed over is the ordinary encoding of what the closures format |
| NanoClients.NanoClient.ReadSomeWithTimeout | src/nano_client.rs:180-203 | the window grows by what the environment delivered; end of stream and errors disconnect |
| NanoClients.NanoClient.NextNotification | src/nano_client.rs:371-408 | terminates, each round using up room, and equals its function of state and answers; the timeout of each read is the time to the next ping by the clock read just before; a ping is asked for only with keep-alive; nothing is sent |
| NanoClients.NanoClient.ReadConnack | src/nano_client.rs:205-226 | terminates and equals its function; no read is given a timeout; the CONNACK is removed from the window |
| NanoClients.NanoClient.SendConnect | src/nano_client.rs:309-315 | opening, emptying the window, printing and sending; the record grows by the CONNECT at most |
| NanoClients.NanoClient.Connect | src/nano_client.rs:304-322 | sending and waiting equal their function of state and answers; the records grow by the CONNECT, one look at the clock and the reads |
| NanoClients.NanoClient.CompleteNotification | src/nano_client.rs:424-439 | drops the taken bytes and sends the action's packet |
| NanoClients.NanoClient.FormatSubscription | src/nano_client.rs:238-240 | running a closure leaves exactly the encoded filters at the front of the transmit buffer, or the first error |
| NanoClients.RunOp | src/packetview/subscribe.rs:150-187 | either way of adding a filter appends its encoding behind what was there, with the outcome the laws speak about |
| NanoClients.NanoClient.FormatSubscribeHeader | src/nano_client.rs:241-249 | type, remaining length and packet id 1 in seven cells, for every length |
| NanoClients.NanoClient.WriteSubscription | src/nano_client.rs:228-266 | the two writes, the second only after the first was accepted |
| NanoClients.NanoClient.ConnectSubscribe | src/nano_client.rs:341-357 | connects, and subscribes only after a successful CONNACK |
| Frames.NotesAreFaithful | src/transport_client.rs:15-26 | a notification determines its packet, and exactly the packets only a client may send have none |
| Frames.FramesAreParsedFirst | src/packetview/packet.rs:69-76 | whole frames in front of a stream are the first items of its sequential parse, whatever follows |
| Frames.ReceivedFacts | src/transport_client.rs:134-189 | an error disconnects, "nothing yet" means an incomplete packet, and a reported packet is the first one of the data |
| Frames.EstablishedVerdict | src/transport_client.rs:164-187 | on an established connection, for every verdict of the parser and every packet type: which notification or which error, the bytes taken, and the new state |
| Frames.WaitingVerdict | src/transport_client.rs:138-162 | the same before the CONNACK and while disconnected: the type named by the error for every packet that is no CONNACK, and what every CONNACK leads to |
| Frames.CompleteWindowIsAnswered | src/nano_client.rs:388-400 | the arm for "nothing yet" after a successful check is never taken |
| Frames.NextFacts | src/nano_client.rs:371-408 | a reported packet is the first one of the window, the window keeps every byte read, any error leaves the client disconnected |
| Frames.NextReturnsIff | src/nano_client.rs:382-393 | exactly when `next_notification` returns: with the first answer that is no chunk, or the first chunk after which the window starts with a whole packet |
| Frames.NextLoopVerdict | src/nano_client.rs:382-408 | what it returns then, as a function of the last answer and of everything in the window, and how it leaves the client |
| Frames.NextVerdict | src/nano_client.rs:371-408 | on an established connection, as a function of the last answer and of the first packet in the window, for every packet type and every error |
| Frames.ConnectFacts | src/nano_client.rs:205-322 | success means the first packet received was a successful CONNACK; after an error the client is disconnected unless the CONNECT did not fit |
| Frames.ConnackLoopVerdict | src/nano_client.rs:205-226 | what waiting for the CONNACK returns, as a function of the first packet received: success exactly for the success code, `UnexpectedPacket` exactly for a refusal, the parse error or wrong packet otherwise, the end of the transport before that |
| Frames.ConnackReturnsIff | src/nano_client.rs:205-226 | exactly when `read_connack` returns: with the first answer that is no chunk, or the first chunk that completes or spoils the first packet |
| Frames.ConnectVerdict | src/nano_client.rs:304-322 | the same for the whole operation, once the CONNECT has been sent, with each error spelled out |
| Frames.ConnAckArrives | src/transport_client.rs:147-155 | for every CONNACK with anything behind it: what connecting returns and how it leaves state, timer and window |
| ClientRuns.StepKeeps | src/nano_client.rs:304-513 | every disciplined call keeps: received bytes = completed frames and window, notes match frames, a pending note is at the front |
| ClientRuns.Conservation | src/nano_client.rs:371-439 | in every disciplined run, received = completed frames followed by the window, and the notifications are a prefix of the one-shot parse |
| ClientRuns.ChunkingIndependence | src/nano_client.rs:371-439 | runs that received the same bytes, however split, delivered the same notifications up to how far each got |
| ClientReplies.ReplyFitsIff | src/nano_client.rs:450-513 | an acknowledgement can be sent if and only if the transmit buffer has four bytes |
| ClientReplies.SilentlyCompleted | src/nano_client.rs:424-439 | completing a packet without acknowledgement, in either way, takes exactly its bytes out of the window, hands nothing over and cannot fail |
| ClientReplies.ReplySent | src/nano_client.rs:424-439 | what a default completion hands over, and what a connection that survives it implies |
| ClientReplies.StepReplies | src/nano_client.rs:424-513 | every polite call keeps the acknowledgements sent a prefix of those required, and equal to them while connected |
| ClientReplies.OrderedReplies | src/nano_client/notification.rs:67-88 | in every polite run the acknowledgements sent for packets are PUBACK, PUBREC and PUBCOMP as required, once each and in receive order: all of them while connected, the first of them always |
| ClientTraces.SentAsAsked | src/nano_client.rs:156-550 | in every run, polite or not, everything else sent is the greeting (CONNECT and SUBSCRIBE) and then exactly the explicitly requested packets and answered pings, once each and in call order |
| ClientTraces.NothingButAnswers | src/nano_client.rs:371-513 | in every polite run without explicit sends, told without tags: all accepted data is the greeting and then exactly the answer to each delivery completed so far, acknowledgements and pings in the order of delivery: all of it while connected, the first of it always |
| ClientTraces.AnswersRead | src/nano_client.rs:371-513 | those answers without the PINGREQs are the required acknowledgements, there is one PINGREQ for each ping request completed, and without keep-alive they are the acknowledgements as they stand |
| ClientTraces.PingsNeedKeepAlive | src/nano_client.rs:382-387 | in every run, polite or not, the client keeps 1000 milliseconds for each second asked for, and no ping is asked for on a connection without keep-alive |
| ClientTraces.TimeoutAfterWrite | src/nano_client.rs:382-387 | in every run, in numbers: the timeout of a read behind a write accepted at any time, for any look at the clock |
| ClientMessages.ConnectFitsIff | src/packetview/connect.rs:202-256 | the CONNECT fits a transmit buffer if and only if its bytes, counted from the options, do |
| ClientMessages.GreetingCarriesIff | src/packetview/connect.rs:135-147 | what a session sends first, whatever follows it, reads as a CONNECT of level 4 with the keep-alive, client id, clean session flag, will and login of the options, if and only if no field is longer than 65535 bytes |
| ClientMessages.FirstFrameCarries | src/nano_client.rs:304-315 | the same for the packet in front of everything sent in any run |
| ClientMessages.SubscriptionCarriesIff | src/nano_client.rs:228-266 | the two writes of a subscription read as packet id 1 and one filter for each operation, in order, with its text and quality of service, if and only if there is an operation |
| ClientMessages.ActionBytes | src/nano_client.rs:450-513 | the bytes of PINGREQ, PUBACK, PUBREC and PUBCOMP as the client sends them, and when they do not fit |
| ClientMessages.PublishCarries | src/nano_client.rs:532-550 | what is sent for a publish reads as its flags, its id and exactly what the two closures appended |
| ClientMessages.AnswerInBytes | src/nano_client/notification.rs:67-88 | from the bytes of any packet to the bytes of the required answer: first byte, and the id copied cell by cell |
| ClientMessages.Exchange | src/nano_client.rs:371-439 | one exchange on an established connection in bytes: what is handed over for the bytes received, and the window without exactly the packet |
| ClientMessages.FrameAnswer | src/nano_client.rs:424-439 | the answer to a completed frame of a run, told by its bytes |
| ClientMessages.RunInBytes | src/nano_client.rs:371-513 | whole runs in bytes: without the PINGREQs `C0 00`, everything sent behind the greeting is the answers told by the bytes of the completed frames, once each and in order |
| ClientGating.DisconnectedIsQuiet | src/nano_client.rs:156-178 | from a disconnected state nothing is handed over and nothing is reported, whatever is called, until connecting again |
| ClientGating.ReadErrorsDisconnect | src/nano_client.rs:180-203 | end of stream or an error among the answers leaves the client disconnected |
| ClientGating.WriteErrorsDisconnect | src/nano_client.rs:156-174 | a refused write leaves it disconnected and is reported as such, for every request and for both subscription writes; what is reported, and nothing handed over, when the data does not fit or the client is disconnected |
| ClientGating.ConnectWriteErrorDisconnects | src/nano_client.rs:309-316 | the same for the CONNECT; one that does not fit is reported with the transport open and the window empty |
| ClientGating.ConnectComesFirst | src/nano_client.rs:304-357 | in every run, what was sent since the last connect is whole packets with one CONNECT, in front, exactly if it fits the buffer; only a cut-off subscription leaves part of a packet, and then the connection is gone |
| ClientGating.PingBeforeConnect | src/nano_client.rs:309-314 | for every set of options there is a client on which a ping precedes the CONNECT |
| ClientGating.OnlyAcceptedConnAcks | src/nano_client.rs:217-223 | connecting returns only CONNACKs with the success code, and then the client is connected |
| ClientGating.ConnectSubscribeFacts | src/nano_client.rs:228-357 | the result in every case; success means both subscription writes were accepted; the state after every error, and the one error after which the client stays connected |
| ClientProgress.WaitingWindow | src/nano_client.rs:382-393 | while waiting, everything read is in the window and it does not start with a packet |
| ClientProgress.OversizedWaits | src/packetview/mod.rs:177 | a packet within the size limit but longer than the window keeps the loop waiting with every byte in the window, whatever pieces it comes in |
| ClientProgress.OversizedNeverArrives | src/nano_client.rs:382-407 | such a packet is never delivered, whatever the environment answers |
| ClientProgress.ArrivesIffItFits | src/nano_client.rs:382-407 | a packet can be delivered if and only if it fits the window |
| ClientProgress.WindowCanClog | src/packetview/mod.rs:177 | for all options with keep-alive, windows and bodies of the limit's size, a run reaches a connected client whose window is full of a packet that never ends |
| ClientProgress.FullWindowDeliversNothing | src/nano_client.rs:382-393 | from a full window the loop can only end with an error or a ping |
| ClientProgress.RoomBeforeEveryRead | src/nano_client.rs:382-393 | in every disciplined run each read of `next_notification` is offered a non-empty slice, unless the window is full of the beginning of a packet that is malformed or longer than it |
| ClientProgress.WindowContinues | src/packetview/mod.rs:169-189 | framing is unambiguous: completed frames are the first packets of any stream the input belongs to |
| ClientProgress.FittingStreamsLeaveRoom | src/nano_client.rs:382-393 | if the input is the beginning of a stream of packets that fit the window, every read of `next_notification` is offered a non-empty slice |
| ClientProgress.RoomWhileConnecting | src/nano_client.rs:205-226 | the same for the reads of `read_connack`: a non-empty slice unless the window is full of the beginning of a malformed or oversized packet |
| ClientProgress.FittingStreamsLeaveRoomToConnect | src/nano_client.rs:205-226 | if the input is the beginning of a stream of packets that fit, every read of `read_connack` is offered a non-empty slice |
| ClientProgress.BufferedPacketWaitsForAByte | src/nano_client.rs:371-407 | a complete packet in the window is reported if and only if the next read brings a byte; what a timeout, the end of the stream and an error lead to instead; it is reported again until completed |
| ClientProgress.PacketLostAtClose | src/nano_client.rs:382-393 | for all options that fit, windows and publishes: a run that ends with the publish received in full, never reported, never answered |
| ClientProgress.LostForGood | src/nano_client.rs:304-310 | from such a state nothing short of connecting reports or answers anything, and connecting does not look at the old window |
| ClientLoops.RunClient | src/nano_client.rs:57-67 | any number of turns of the documented loop on the object form a polite run, and the environment's records agree with the run's history |
| ClientHistories.AutomatonOfRun | src/nano_client.rs:149-153 | in every run the automaton inside the client is where its history of events leaves an automaton on its own, so connectedness and keep-alive follow that history |
| ClientLoops.RunSession | src/nano_client.rs:57-67 | connect, with or without a subscription, and loop from a new object, in terms of the environment's own untagged records: conservation, order of delivery, and all accepted data is the greeting and then exactly the answer to each delivery in order, pings included, with none of these without keep-alive; the greeting reads as what the options and the subscription say, and the answers are told by the bytes of the frames |
| ClientLoops.Open | src/nano_client.rs:304-357 | either way of connecting on a new object is one opening call of a run, with the records it leaves |
| TopicIterators.TopicIterator.Next | src/packetview/topic_iterator.rs:72-91 | the two flags yield parts and separators in turn |
| TopicIterators.InterleavedIsJoined | src/packetview/topic_iterator.rs:14-19 | what the iterator yields is, put together, the joined topic |
| TopicIterators.JoinedPartsSplit | src/packetview/topic_iterator.rs:72-91 | splitting the joined topic at `/` gives the parts back |
| TopicIterators.FormatTopic | src/packetview/topic_iterator.rs:72-91 | draining the iterator gives the joined topic, for any number of parts |
| Topics.JoinOfLevels | src/mqttbytes/topic.rs:68-69 | splitting at separators loses nothing |
| Topics.LevelsOfJoin | src/mqttbytes/topic.rs:68-69 | lists of levels without separators and strings correspond one to one |
| Topics.Split.Next | src/mqttbytes/topic.rs:68-69 | the scanning iterator yields the recursive list of levels |
| Topics.ValidFilter | src/mqttbytes/topic.rs:19-56 | the backward loop accepts exactly non-empty filters with `#` alone and last and `+` alone in its level, in characters |
| Topics.MatchTopic | src/mqttbytes/topic.rs:63-96 | the two-iterator loop equals the recursive matching of level lists |
| Topics.MatchIff | src/mqttbytes/topic.rs:63-96 | matching without recursion and in characters: not if the string starts with `$`, else if and only if the levels in front of the first `#` agree one by one, and without `#` there are no more of them |
| Topics.SplitAtSlash | src/mqttbytes/topic.rs:68-69 | levels end at `/` and nowhere else |
| Topics.ValidTopicIff | src/mqttbytes/topic.rs:2-16 | a string is a topic if and only if there is neither `#` nor `+` in any of its levels |
| Topics.ReflexiveIff | src/mqttbytes/topic.rs:63-96 | a string matches itself if and only if it does not start with `$` |
| Topics.Transitive | src/mqttbytes/topic.rs:58-96 | matching filters against filters is sound: what the narrower matches the wider matches |
| Topics.Antisymmetric | src/mqttbytes/topic.rs:58-96 | valid filters that match each other are the same |
| Topics.SubsumptionIff | src/mqttbytes/topic.rs:58-96 | on valid filters, covering all topics of the other (all strings without wildcards) is matching it, except for filters starting with `$` and for `#` under `+/#` |
| Topics.LevelsAreText | src/mqttbytes/topic.rs:68-69 | splitting a string at separators never splits a character |
| Vectors.PublishVector | src/packetview/publish.rs:278-290 | the bytes of the repository's PUBLISH example |
| Vectors.ConnectVector | src/packetview/connect.rs:331-392 | the bytes of the repository's CONNECT example |
| Vectors.SubAckVector | src/packetview/suback.rs:153-176 | the bytes of the repository's SUBACK example |
| Vectors.SubscribeVector | src/packetview/subscribe.rs:291-332 | the bytes of the first two filters of the repository's SUBSCRIBE example |
| Vectors.LengthVectors | src/packetview/mod.rs:311-336 | the border values of table 2.4 of MQTT 3.1.1 |
| Vectors.PaddedLengthIsAccepted | src/packetview/mod.rs:220-238 | a length in more bytes than needed is accepted and not reproduced |
| Vectors.TrailingByteIsDropped | src/packetview/puback.rs:20-32 | a PUBACK with a byte behind its id is accepted and not reproduced |
| Vectors.EmptySubscribeDoesNotReadBack | src/packetview/subscribe.rs:117-118 | a SUBSCRIBE without filters is printed and not read |

## Left out

- Asynchrony: futures, cancellation and real sockets behind `Platform`. Calls are synchronous methods; every answer the trait allows is possible.
- OutPublishes.RunFormatter: a closure is a list of chunks and a final verdict, and stops at the first append that fails; one that ignores a failed append and goes on is caller code the model does not capture.
- NanoClients.NanoClient.FormatSubscription: the subscription closure likewise is a list of `add_str` and `add_separated` calls and a verdict.
- Wall-clock resolution: durations are whole milliseconds. Where several conditions fail at once the order of the errors is the code's; generic error conversions are not modelled.
- Integer overflow of `usize`: lengths are unbounded, so the sum of header and remaining length cannot overflow.
- `AddAssign`, `SubAssign`, `Sub<Duration>` and `add_seconds` of `src/time.rs`: not used by keep-alive.
- `WriteCursor::advance`, `unused_capacity`, `written_slice`, the `is_empty`, `is_full` and `capacity` accessors of the writers, and `Storage::is_empty`: easy members no law needs.
- `send_publish_qos0` and its siblings: thin wrappers around `send_publish`.
- `into_inner`, `from_transport_client` and the raw handover of a `TransportClient`: a size limit other than the receive capacity does not arise.
- `Debug` and `core::fmt::Write` implementations, lifetimes and borrow rules.
- `src/mqttbytes/mod.rs` and `src/mqttbytes/v4`: a disabled allocating twin of the packet layer that differs in places. `src/mqttbytes/topic.rs` is modelled although the module is commented out of the build (`src/lib.rs:4`).
- `src/uclient.rs` and `src/publish_state.rs`: unfinished, not built or empty.
- Packet id allocation, retransmission, publish state and the broker: left to the user by the source (`src/nano_client.rs:10-12`).
- Topics.MatchTopic: requires an ASCII first byte, because the source slices off one byte and panics inside a longer character (`src/mqttbytes/topic.rs:64`).
- ClientRuns.Conservation: the calls are those of the public API with each notification completed once before the next one is asked for; a user who asks again first gets the same notification again (`ClientProgress.BufferedPacketWaitsForAByte`).
