# WING Native protocol: model and proofs

This project models the protocol core of a client library for WING mixing consoles and proves
properties of it in Dafny. `dafny verify dfyconfig.toml` checks everything.

What is modelled:

* **The Native wire codec, both directions.** `Framing` is the escape and channel layer,
  `WireUnits` an independent grammar of the same wire, `Tokens` the one token grammar that three separate parsers share. `Requests`, `RequestLaws`
  and `RequestDecoder` are the server's incremental request decoder, first as a reference
  function over events, then as the class that works on its buffers. `ClientMessages` and
  `ClientServer` connect the client's message builders to it, `RequestPaths` the requests other
  clients send. `Definitions`, `DefinitionCuts`
  and `DefinitionCodec` are node definitions; `Responses` is the server's bounded encoder.
* **The client's read transaction.** `Reader` says what responses a stream of parameter bytes
  holds. `Console` reads them from replayed bytes, queued events, the receive buffer and the
  socket, rolls a timed-out read back, and builds attended gets and raw captures on top.
  `ReadState` and `Attended` hold the relations its methods promise. `EndToEnd` joins server
  and client. `BinaryValues` is the second parser of captured values.
* **Bulk writes and restore.** `BulkWrite` and `Restore`, with `Sorting` for the stable sort;
  `WritesArrive` follows their bytes into the server's decoder.
* **The session protocol of clones.** `Session` is a step system of any number of threads that
  reconnect, read, capture, write in bulk and keep the session alive; every lock acquisition,
  every change to a shared flag and every load that decides a bulk batch is a step of its own. `SessionLaws` proves its invariants.
* **The property index.** `PropMap` builds the blob, `PropIndex` searches it in place.
* **OSC 1.0** (`Osc`, `OscDecode`, `OscNodes`) and **publishing several files** (`Publish`).

Conventions. Bytes are 0 to 255, floats are 32-bit patterns, strings are byte sequences that are
well-formed UTF-8 (section 4 of RFC 3629). The clock, deadlines, receive chunks, failures of
sockets and files, and what other clones do at unlocked moments are nondeterministic choices.
Where such a choice makes an operation fail, it is recorded in ghost state (`troubles` around a
console, `records` at the shared writer, `faults` of the file system), so that contracts say when
an operation must succeed. A console's surroundings hold the bytes the peer will ever send. How often the line can be quiet is a
number of the network's choosing, which is what makes an unbounded read return.

Where the code and its documentation differ, the model follows the code:

* The attended read documents that what it buffered is handed back when it times out. When it
  fails for another reason, or because 65536 unrelated responses went by, the buffer is dropped
  (src/console.rs:1237-1240). `AttendedFrom` says so.
* A subtree fetch that fails puts the older queue and the leftovers back, but definitions it has
  already accepted are gone (src/console.rs:1344-1365). `FetchedFrom` says so.
* A capture is decoded with lossy UTF-8 (src/console.rs:2276), a read refuses malformed text
  (src/console.rs:948). The two agree on every reply a drain completes.
* `publish_outputs` asks `path.exists()`, which also answers no when the probe itself fails
  (tools/atomic_write.rs:67). A destination that is there and not seen is replaced without a
  backup. If a later rename fails, taking the new file back leaves nothing. So a failed publish
  whose rollback raises no error restores everything if and only if no destination replaced
  before the failing rename was missed by its probe. `PublishOutputs` states this for every destination and every run, and
  `UnseenDestinationIsLost` is a run with such a loss. Success does not depend on it.
* The blob's magic is `WPM2`; the assertion message that checks it names WPM1
  (src/propindex.rs:101-104).

Masking with `slots - 1` (src/propindex.rs:166-175) is bitwise and on natural numbers.

## Model

| member | source | states |
|---|---|---|
| Framing.ChannelDecoder.constructor | src/native.rs:24-29 | A new decoder is outside an escape and has no channel. |
| Framing.ChannelDecoder.WithChannel | src/native.rs:31-41 | A decoder on the selected channel, or a refusal of a channel of 14 or more. |
| Framing.ChannelDecoder.PushByte | src/native.rs:53-87 | One byte moves the escape/channel state and yields zero, one or two events, or is refused for lack of a channel, exactly as the byte-level state machine says. |
| Framing.ChannelDecoder.Push | src/native.rs:43-51 | A fragment leaves the state and yields the events of the state machine run over it, including where it stops on an error. |
| Framing.ChannelDecoder.Finish | src/native.rs:89-96 | Refuses a stream that ends inside an escape sequence. |
| Framing.ChannelDecoder.Reset | src/native.rs:98-102 | Back to the start, no channel selected. |
| Framing.AppendEscaped | src/native.rs:115-122 | Appends the escape of the payload and keeps what was there. |
| Framing.EncodeChannel | src/native.rs:105-113 | The frame is a channel select and the escaped payload; a channel of 14 or more is refused. |
| Framing.DeframeConcat | src/native.rs:43-87 | Decoding a stream in two pieces gives the events and the state of decoding it whole. |
| Framing.EscapeRoundTrip | src/native.rs:115-122 | On a selected channel an escaped payload decodes to exactly its bytes, whatever 0xdf bytes it holds. |
| Framing.FrameRoundTrip | src/native.rs:105-122 | From any state outside an escape, a frame decodes to its channel select and its payload. |
| Framing.NeverBroken | src/native.rs:53-87 | Once a channel is selected no input whatever is refused. |
| Framing.EscapeLength | src/native.rs:701-708 | Escaping never shortens and at most doubles a payload. |
| WireUnits.UnitsDecode | src/native.rs:53-87 | Over an independent grammar of the wire (plain bytes, the two literal forms of 0xdf, channel selects, and 0xdf in front of a byte that gives it no meaning) the decoder yields what each unit carries: one 0xdf for both literal forms, both bytes for the last kind. |
| WireUnits.WireDecodes | src/native.rs:43-87 | Every wire is a sequence of such units and perhaps one waiting 0xdf, and decodes to exactly what they carry. |
| WireUnits.NothingWithoutChannel | src/native.rs:53-87 | Before a channel is selected, of all units only a selection is accepted. |
| WireUnits.RawPassesThrough | src/native.rs:77-84 | A wire in which no 0xdf is last or in front of 0xd0 to 0xdf is its own payload, on every channel. |
| WireUnits.RawDefinitionParses | src/native.rs:77-84 | A definition whose 0xdf token comes raw is read by the client as that definition, selected node and size included. |
| Tokens.NextTokenStable | src/native.rs:323-477 | A complete token is read the same whatever bytes follow it. |
| Tokens.NextTokenPrefix | src/native.rs:323-477 | No strict prefix of a token is a token. |
| Tokens.NextTokenGrows | src/native.rs:258-292 | One more byte either leaves a token unfinished or completes it with nothing left over. |
| Tokens.TokenSizeBound | src/native.rs:323-477 | No token is longer than 258 bytes. |
| Tokens.ValueRoundTrip | src/native.rs:710-742 | Every encoded value, in the short, 16-bit, 32-bit or string form chosen for it, is one token that means that value, whatever follows. |
| Tokens.SelectorRoundTrip | src/console.rs:1158-1166 | A node selector reads back as its id. |
| Meters.WireRoundTrip | src/console.rs:87-131 | The wire form of every meter reads back as that meter. |
| Meters.EncodeMeter | src/console.rs:1135-1148 | Appends the escaped entry of an in-range meter and refuses every other. |
| Meters.DecodeMeterEntries | src/native.rs:579-603 | Decodes a collection of sticky families and indices, refusing stray indices, bytes above 0xaf and more than the limit. |
| Meters.EntriesRoundTrip | src/console.rs:1135-1148 | The entries a client writes decode to the meters it asked for, in order. |
| Meters.EntriesPlain | src/console.rs:1135-1148 | No byte of a collection is an escape or an end token. |
| Requests.ApplyKeepsPathBytes | src/native.rs:479-496 | Applying a token keeps the byte count of the path equal to the sum of its names. |
| Requests.DrainMeterFrame | src/native.rs:513-563 | Parsing metering bytes touches nothing but the metering buffer and port. |
| RequestDecoder.NativeRequestDecoder.constructor | src/native.rs:235-247 | Starts empty. |
| RequestDecoder.NativeRequestDecoder.Reset | src/native.rs:310-313 | Keeps the limits and drops all state. |
| RequestDecoder.NativeRequestDecoder.Push | src/native.rs:250-256 | Either the requests and the new state of the reference decoder over the whole fragment, within the batch limit, or an error after which everything is reset. |
| RequestDecoder.NativeRequestDecoder.PushEvents | src/native.rs:258-295 | Handles every decoded event in order, as the reference decoder does. |
| RequestDecoder.NativeRequestDecoder.PushEvent | src/native.rs:260-292 | One event: channel selects flush a pending renewal, channels 1 and 3 feed their parsers, other bytes become unknown requests. |
| RequestDecoder.NativeRequestDecoder.AudioData | src/native.rs:267-275 | A byte of the parameter channel grows the partial token and, once complete, means what the token grammar says. |
| RequestDecoder.NativeRequestDecoder.MeterData | src/native.rs:276-282 | A byte of the metering channel drains every request it completes. |
| RequestDecoder.NativeRequestDecoder.ParseAudio | src/native.rs:323-477 | The recursive parse equals applying the one token in the buffer, with a decreasing measure. |
| RequestDecoder.NativeRequestDecoder.ParseIndexToken | src/native.rs:339-384 | Node indices, 6-bit and 16-bit, extend the path within the element limit. |
| RequestDecoder.NativeRequestDecoder.ParseNameToken | src/native.rs:351-363 | Node names extend the path within the element and byte limits and must be UTF-8. |
| RequestDecoder.NativeRequestDecoder.ParseSelection | src/native.rs:327-449 | Selecting a node, going to the root and going up; going up takes back exactly the name's bytes. |
| RequestDecoder.NativeRequestDecoder.ParseValue | src/native.rs:337-418 | Value tokens set the selected node or the path. |
| RequestDecoder.NativeRequestDecoder.ParseOperation | src/native.rs:419-477 | Click, step, data and definition requests, and unknown opcodes. |
| RequestDecoder.NativeRequestDecoder.ParseMeter | src/native.rs:513-563 | One metering request from the buffer, or none yet; a collection closes on the newest byte. |
| RequestDecoder.NativeRequestDecoder.Flush | src/native.rs:297-299 | An idle boundary turns a waiting five-byte report id into a renewal. |
| RequestDecoder.NativeRequestDecoder.FlushMeterRenewal | src/native.rs:565-577 | The renewal carries the report id read from the buffer, and the buffer is emptied. |
| RequestDecoder.NativeRequestDecoder.Finish | src/native.rs:301-308 | Ends cleanly exactly if no partial token, collection or escape is waiting. |
| RequestLaws.InitialInv | src/native.rs:235-247 | A new decoder satisfies the invariant. |
| RequestLaws.HandleInv | src/native.rs:258-292 | Every event keeps the invariant: the partial token is a strict prefix of one token, the path's byte count and limits hold, and the metering buffer holds one unfinished request. |
| RequestLaws.RunInv | src/native.rs:250-292 | So does every run of events. |
| RequestLaws.AudioIsShort | src/native.rs:315-321 | Between events at most 257 bytes of a token wait. |
| RequestLaws.NameLengthPop | src/native.rs:442-449 | Going up never takes more bytes off the path's count than are there. |
| RequestLaws.NewestByteClosesTheCollection | src/native.rs:539-553 | Closing a collection on the newest byte is the same as scanning it for the first 0xde. |
| RequestLaws.PushSplits | src/native.rs:250-292 | A push of two fragments joined equals the two pushes one after the other, unless the joined batch passes the limit. |
| RequestLaws.FragmentationIndependence | src/native.rs:43-87 | However a stream is cut, pushing the pieces gives the requests and the final state of one push of it all; the one push fails exactly when a piece fails or the batch limit is passed. |
| RequestLaws.PiecesExact | src/native.rs:250-292 | The same for actual pushes of pieces, each with its own batch limit. |
| ClientMessages.FormatId | src/console.rs:1158-1166 | Prefix, escaped id and suffix behind what was there. |
| ClientMessages.AppendValueMessage | src/console.rs:1728-1739 | Appends one set message; on a value that cannot be encoded the buffer is untouched. |
| ClientMessages.RequestNodeMessage | src/console.rs:1168-1192 | Id 0 asks for the bulk root forms, every other id for that node. |
| ClientMessages.ToggleMessage | src/console.rs:1530-1536 | The click message of a node. |
| ClientMessages.SubscribeMessage | src/console.rs:1381-1416 | The whole subscribe message, or a refusal if any meter is out of range. |
| ClientMessages.RenewMessage | src/console.rs:986-1002 | The renewal message of a report id and port. |
| ClientServer.TokenRun | src/native.rs:258-292 | A whole token fed byte by byte is applied once, at its last byte. |
| RequestPaths.StepYields | src/native.rs:424-434 | A step of -128 to 127 in two's complement asks for that signed step of the selected node, and is refused without one. |
| RequestPaths.ElementYields | src/native.rs:339-384 | A name of 1 to 16 bytes or an index of 1 to 65536 extends the path exactly if the longer path keeps to both limits, and is refused otherwise. |
| RequestPaths.PathRequestYields | src/native.rs:419-477 | Going to the root, walking down any path within the limits and asking requests the data or the definitions of exactly that path. |
| RequestPaths.GoUpUndoesElement | src/native.rs:435-449 | Going up takes back the last element with its bytes, and does nothing at the root. |
| RequestPaths.OtherChannels | src/native.rs:283-285 | Bytes of every other channel are reported one by one, in order, and change nothing. |
| ClientServer.SetYields | src/console.rs:1720-1739 | A set message decodes to one set request with its id and value. |
| ClientServer.SubscribeYields | src/console.rs:1381-1416 | A subscribe message decodes to the port, one subscription with its report id and 1-based meters, and keepalives. |
| ClientServer.RenewYields | src/console.rs:986-1002 | A renewal decodes to a renewal of that report id. |
| ClientServer.MessageRoundTrip | src/console.rs:986-1192 | Any one message the client can send yields exactly the requests expected of it and leaves the decoder idle on channel 1. |
| ClientServer.StreamRoundTrip | src/console.rs:986-1536 | Any sequence of such messages yields the expected requests in order. |
| ClientServer.ClientToServer | src/native.rs:323-600 | One push of any sequence of client messages within the default limits to a fresh decoder on channel 1 yields exactly the matching requests. |
| Definitions.DefRoundTrip | src/node.rs:109-309 | Parsing the wire bytes of any canonical definition gives it back, enum lists of any length up to 65535 included. |
| Definitions.ParsedIsCanonical | src/node.rs:183-309 | Whatever bytes it came from, a parsed definition is canonical, so encoding it and parsing again gives the same fields. |
| DefinitionCuts.StrictPrefix | src/node.rs:183-309 | A strict prefix of a canonical encoding is accepted exactly when it is a fader level cut inside its optional 12-byte range; every other is refused. |
| DefinitionCodec.ToWireBytes | src/node.rs:109-181 | The encoder's bytes, or its refusal of names over 255 bytes and lists over 65535 items. |
| DefinitionCodec.PushTyped | src/node.rs:125-180 | The part that depends on the node type. |
| DefinitionCodec.PushShortString | src/node.rs:312-317 | A length byte and the text, or a refusal. |
| DefinitionCodec.TakeBytes | src/node.rs:319-326 | The next bytes at the cursor, or a refusal that never reads past the end. |
| DefinitionCodec.FromBytes | src/node.rs:183-309 | The parser with its cursor gives exactly the reference result, with or without the raw bytes kept. |
| DefinitionCodec.CursorTyped | src/node.rs:230-309 | The typed part at the cursor. |
| Responses.EscapedLen | src/native.rs:701-708 | Counts the escaped length without building it. |
| Responses.BoundedResponseEncoder.constructor | src/native.rs:642-650 | Starts with the length of an empty frame. |
| Responses.BoundedResponseEncoder.Push | src/native.rs:656-688 | Accepts a response exactly if it encodes and the frame stays within the ceiling; the running length stays the length of the finished frame; a refused response changes nothing. |
| Responses.BoundedResponseEncoder.Finish | src/native.rs:690-698 | The finished frame, of the length announced. |
| Responses.EncodeAllConcat | src/native.rs:614-633 | The payload of two lists joined is the two payloads joined. |
| Responses.EncodeResponsesBounded | src/native.rs:623-633 | A batch encodes exactly if every response does and the whole frame fits. |
| Reader.ParseStable | src/console.rs:775-886 | Bytes still to come change nothing that has been decided. |
| Reader.ParseExact | src/console.rs:775-886 | A response depends on exactly the bytes it takes. |
| Reader.NeedMeansLonger | src/console.rs:775-886 | While a prefix needs more, the response is longer than that prefix. |
| Reader.NavigateThenParse | src/console.rs:803-870 | Navigation tokens in front only move the selected node. |
| Reader.NavigationIsSkipped | src/console.rs:803-870 | Each navigation opcode is stepped over with its own number of operand bytes, a node selection moves the node to its operand, and opcodes above 0xdf are refused. |
| Reader.EncodedParses | src/native.rs:656-688 | Every encoded response is read back as itself: events as node data, both float tokens as float, both definition length forms. |
| Reader.BatchIsUpcoming | src/native.rs:614-633 | An encoded batch holds exactly its responses, in order, and nothing more. |
| Reader.DeliversUpcoming | src/console.rs:737-773 | What reads have delivered and what is still to come add up to what was to come. |
| Reader.RequeueIsUpcoming | src/console.rs:1245-1250 | Responses put back are to come again, in order, before everything else. |
| Console.Outside.Read | src/console.rs:42-60 | Hands over a non-empty chunk of the peer's bytes, or is quiet, closed or broken; a fault is recorded. |
| Console.Console.constructor | src/console.rs:563-631 | A fresh session has everything the peer will send before it. |
| Console.Console.TakeWireByte | src/console.rs:1095-1120 | One wire byte, with a second event queued, leaves the logical stream as it was but for the byte returned. |
| Console.Console.DecodeNextInner | src/console.rs:1017-1121 | The next byte of the logical stream, taken from replay, queued events, buffer or socket in that order; a timeout takes nothing, and data is refused only when the response is over 16 MiB. |
| Console.Console.DecodeNext | src/console.rs:1008-1015 | The same, teed into an active capture. |
| Console.Console.ReadToken | src/console.rs:785-870 | The rest of a token, or what was taken of it stays captured. |
| Console.Console.InterpretValue | src/console.rs:783-858 | The value of a value token, refused if its text is not UTF-8. |
| Console.Console.ReadDefinitionLength | src/console.rs:879-889 | A 16-bit length, or 0 and a 32-bit one. |
| Console.Console.ReadDefinition | src/console.rs:874-886 | A definition, refused above 1 MiB or when malformed, is what the reference parser makes of the stream. |
| Console.Console.ReadInner | src/console.rs:775-891 | Steps over navigation and returns the next response of the stream with the node it leaves selected. |
| Console.Console.RollBack | src/console.rs:752-758 | Everything captured goes back in front of the stream. |
| Console.Console.ReadLocked | src/console.rs:737-773 | A read delivers the next response; after a timeout the queue, the selected node and the logical stream are exactly as before; malformed data is reported only if the stream holds some or a response too long; an untainted stream ends with a connection error only when nothing is queued and everything still to come holds no whole response. |
| Console.Console.Read | src/console.rs:727-734 | The next response, without a time limit, so it never times out. On an untainted stream with no fault, announcement or deadline recorded during the call it answers if and only if a response is queued or the next one is whole and not too long. It fails with an I/O error only if a fault was recorded, with Reconnecting only if an announcement was seen, with a connection error only if tainted or once everything whole has been delivered. |
| Console.Console.ReadTimeout | src/console.rs:901-909 | The same with a time limit, which is cleared again; it times out only if a passed deadline was recorded. |
| Console.Console.Requeue | src/console.rs:1245-1250 | Puts responses in front of the queue, in order. |
| Console.Console.AttendedReadUntil | src/console.rs:1217-1241 | A match is delivered right behind the buffered responses, none of which match; a timeout gives all of them back. |
| Console.Console.GetNodeData | src/console.rs:1268-1284 | An attended get of a node's value conserves every other response, returns a value of that node, and buffers none; how it ended is accounted for by what was recorded and read. |
| Console.Console.GetNodeDefinition | src/console.rs:1300-1316 | An attended get of a definition does too. |
| Attended.MatchesMean | src/console.rs:1279-1282 | A get of a value is matched by exactly the values of that node, a get of a definition by exactly the definitions with that id. |
| ReadState.UnansweredGet | src/console.rs:1217-1241 | On an untainted stream with nothing recorded, a get without an answer ran into malformed data, its buffer limit or the end of the stream, and in the last case no response of the stream matches. |
| Console.Console.GetNodeDefinitions | src/console.rs:1325-1366 | Splits the newly read responses into definitions of the subtree and leftovers, which go behind the older queue, in order; how it ended is accounted for by what was recorded and read. |
| Console.Console.GetBinaryNode | src/console.rs:1557-1594 | The capture is exactly the bytes the responses took, up to the first end marker; the older queue is kept; only a timeout taints the stream. |
| ReadState.ReadIsAtomic | src/console.rs:750-772 | Rolling back what was captured undoes a read that timed out. |
| ReadState.StrodeThenRefused | src/console.rs:775-891 | Data refused after some navigation was unacceptable, or the response exceeds the room. |
| ReadState.AttendedConserves | src/console.rs:1217-1241 | A match and its buffer were the next responses, in order; after a timeout all responses are still to come. |
| ReadState.FetchConserves | src/console.rs:1325-1366 | A subtree fetch returns exactly the definitions read that lead up to the root by parent ids, in order, and takes out nothing else but the end marker. |
| ReadState.CaptureStandsAlone | src/console.rs:1557-1594 | The captured bytes, read alone, hold exactly the responses that went by. |
| Attended.SplitConserves | src/console.rs:1344-1361 | Definitions and leftovers are an ordered split of everything read. |
| Attended.LinkedReaches | src/console.rs:1344-1352 | Definitions accepted by id or parent id all lead up to the root. |
| Attended.SplitIsLeadingUp | src/console.rs:1344-1352 | Of the responses read, exactly those definitions are kept that are the root or a child of it, or whose id or parent is the id of an earlier one that leads up to the root; exactly the others are set aside. |
| EndToEnd.WireIsPayload | src/native.rs:614-741 | The channel decoder hands the client's parser exactly the unescaped bytes of all batches. |
| EndToEnd.TimeoutsNeverMatter | src/console.rs:744-762 | On any stream whatever, a run of reads with any of them timing out delivers what uninterrupted reads would, and leaves the same to come. |
| EndToEnd.AwaitsNext | src/console.rs:775-891 | With encoded responses ahead, the next read delivers the first and no guard trips. |
| EndToEnd.DeliversWhatWasSent | src/console.rs:737-886 | For every list of batches the server accepts, in any chunks and with any number of timeouts, successive reads deliver exactly those responses in order. |
| EndToEnd.ReadSession | src/console.rs:727-909 | A client reading on with or without time limits gets a prefix of what was sent and never finds it malformed; when it is told that the connection has ended, it has everything. If nothing was recorded around it, each read delivers one response until all are delivered. Every read without a response is paid for by a recorded trouble, and a failure names one of its kind. |
| BinaryValues.ParseBinaryValues | src/console.rs:2286-2359 | The looser parser's result over any bytes. |
| BinaryValues.ParseStep | src/console.rs:2303-2355 | One token at its cursor: a pair, a selection, nothing, or an error. |
| BinaryValues.ParsersAgree | src/console.rs:775-886 | Over the bytes of a drained reply both parsers see the same values. |
| BinaryValues.CaptureParses | src/console.rs:1557-1608 | Parsing a capture succeeds exactly if only values went by and a selector came before the first, and then yields exactly those pairs; writing the capture back escapes it so that it decodes to itself. |
| BinaryValues.EncodeBinaryValues | src/console.rs:2365-2386 | Encodes every pair but those with over-long strings, and an end token. |
| BinaryValues.EncodedParsesBack | src/console.rs:2365-2386 | Parsing that gives the input without the strings of more than 256 bytes. |
| BulkWrite.Link.FlushNodeWrites | src/console.rs:1777-1808 | Under the writer lock: the outcome is what the recorded look and write say and nothing else. A tainted or replaced session gets nothing, otherwise the whole buffer is written; a failed write fails every queued item; other results stay. |
| BulkWrite.Link.WriteNodeValues | src/console.rs:1747-1775 | One result per item; the batches lie end to end, each carries exactly its accepted items' messages, is under 8 KiB plus one message, and settles their results. An item is queued exactly if its own look found the stream usable and it can be encoded. The looks, fences and writes recorded are exactly those of the items and batches. |
| BulkWrite.OkMeansWritten | src/console.rs:1741-1746 | An item is Ok exactly if it was queued and its whole message lay in a batch written in full. |
| BulkWrite.FailureHasACause | src/console.rs:1741-1746 | An item that can be encoded fails only if its look found the stream unusable, or its batch met a tainted or replaced session or a failed write; it fails as invalid exactly if it cannot be encoded on a usable stream. |
| BulkWrite.HealthyBulk | src/console.rs:1741-1746 | With nothing bad recorded, every item that can be encoded succeeds and the bytes sent are those of separate set messages. |
| BulkWrite.BulkIsOneAtATime | src/console.rs:1741-1746 | If every encodable item succeeds, the bytes sent are those of separate set messages. |
| BulkWrite.SetMessageSize | src/console.rs:1728-1739 | No set message is empty or longer than 525 bytes. |
| Restore.OrderedIsStableSort | src/console.rs:2083-2087 | The applied order is a stable permutation of the dump. |
| Restore.SelectorsFirst | src/console.rs:2439-2445 | Model selectors come first, shallower before deeper. |
| Restore.SelectorPath | src/console.rs:2439-2445 | A selector is a path that is mdl or ends in /mdl. |
| Restore.SlashesCount | src/console.rs:2439-2445 | The depth is the number of slashes. |
| Restore.FlushRestoreBatch | src/console.rs:2115-2126 | Each waiting entry gets the result of its write. |
| Restore.Restore | src/console.rs:2083-2113 | One result per entry in the applied order; each attempted selector is written alone; an entry fails unattempted only if it is read-only or behind a failed selector; what the writer recorded is what its bulk writes recorded. |
| Restore.NothingAfterFailedSelector | src/console.rs:2076-2078 | Once an attempted selector fails, every later result is an error and no later entry is part of any write. |
| Restore.BlockedFor | src/console.rs:2096-2104 | An entry goes unattempted exactly if it is read-only or a selector before it failed. |
| Restore.SlotsInOrder | src/console.rs:2083-2113 | Over all writes the entries are taken in the applied order, each at most once. |
| Restore.RestoreIsOneAtATime | src/console.rs:2083-2126 | If every attempted write that can be encoded succeeds, the bytes sent are the separate set messages of the attempted entries. |
| Restore.RestoreHealthy | src/console.rs:2083-2126 | With nothing bad recorded, an entry succeeds exactly if it can be encoded, is not read-only, and no selector applied before it cannot be encoded; the bytes sent are the separate set messages of exactly those entries, in the applied order. |
| WritesArrive.BulkArrives | src/console.rs:1741-1746 | If every encodable item succeeds, the server decodes the bytes, in any fragments, to exactly one set request per such item, in order. |
| WritesArrive.RestoreArrives | src/console.rs:2062-2078 | If every attempted write of a restore that can be encoded succeeds, the server decodes exactly the attempted entries' sets in the applied order. |
| WritesArrive.HealthyRestoreArrives | src/console.rs:2062-2126 | A restore with nothing bad recorded brings the server exactly one set request for each entry that is up for writing and can be encoded. |
| WritesArrive.PairIsSetMessage | src/console.rs:1602-1608 | Escaping an encoded pair gives the set message of that pair. |
| WritesArrive.PairsArrive | src/console.rs:1596-1608 | Values encoded in the binary form and written back reach the server, in any fragments within its batch limit, as one set request each, in order, whatever 0xdf bytes they hold; the end token is passed over as unknown. |
| SessionLaws.StepKeeps | src/console.rs:635-713 | Every step of every clone keeps the session invariant. |
| SessionLaws.EveryRunKeeps | src/console.rs:635-713 | So every reachable state of any number of clones satisfies it. |
| SessionLaws.SessionFence | src/console.rs:1777-1808 | While no reconnect is announced, writer, reader and queued bytes belong to session number `generation`; every bulk batch went to the session it started under, untainted; the stream is tainted only if a capture timed out on the current session, and always then unless the capturing thread is still on its way to taint it. |
| SessionLaws.NothingCrosses | src/console.rs:670-709 | Whoever holds the read gate sees only bytes and responses of the current reader's session. |
| SessionLaws.AnnouncedByOne | src/console.rs:662-709 | The reconnecting flag is set exactly while some thread is between its two announcements. |
| SessionLaws.TaintFence | src/console.rs:1584-1592 | In every run, once a capture has timed out on a session and its thread has gone past its last step, no bulk batch reaches that session again. |
| SessionLaws.CaptureRaisesFence | src/console.rs:1584-1592 | A capture that times out undisturbed taints the session in three steps. |
| SessionLaws.HealthyFlush | src/console.rs:1777-1808 | A flush on a healthy session is never refused: its steps lead on, and the batch is logged for the session it started under. |
| SessionLaws.ReconnectCompletes | src/console.rs:635-713 | A reconnect that is not kept waiting and whose handshake succeeds completes: one generation more, no taint, no announcement, no lock. |
| SessionLaws.RisingOrder | src/console.rs:635-713 | Every operation asks only for locks of higher rank than those it holds. |
| SessionLaws.NoLockCycle | src/console.rs:968-1002 | No cycle of threads each waiting for a lock of the next exists. |
| SessionLaws.SomeoneCanStep | src/console.rs:1388-1416 | From any waiting thread, following the waits leads to one that can go on: no deadlock. |
| Sorting.SortSorts | tools/wingschema.rs:224-231 | The sort is an ordered permutation. |
| Sorting.SortStable | src/console.rs:2085-2087 | Elements the order does not tell apart keep their order. |
| PropMap.PushEntry | tools/wingschema.rs:170-176 | Appends flag, name and definition with their lengths cut to 16 bits; a record whose lengths fit is appended whole. |
| PropMap.CountEntries | tools/wingschema.rs:179-189 | Counts the records. |
| PropMap.ReadRows | tools/wingschema.rs:205-223 | Walking the raw bytes recovers every record's offset, name and id. |
| PropMap.ComputeNameHash | tools/wingschema.rs:191-199 | FNV-1a with 64-bit wrap-around, folded. |
| PropMap.SlotsArePowerOfTwo | tools/wingschema.rs:233-237 | The table size is a power of two and less than four times the count. |
| PropMap.MaskIsRemainder | tools/wingschema.rs:239-241 | Masking with one less than a power of two leaves the remainder. |
| PropMap.AfterWraps | src/propindex.rs:166-175 | So the next probe is the next slot, and the first one after the last. |
| PropMap.BuildHash | tools/wingschema.rs:232-245 | The table holds every ordinal where probing from its home reaches it through taken slots, and at least half of it is free. |
| PropMap.InsertName | tools/wingschema.rs:238-245 | One more name, with everything placed before still found. |
| PropMap.NeighboursDecide | tools/wingschema.rs:224-228 | Sorted neighbours differ exactly if all names are distinct. |
| PropMap.NameLeMeans | tools/wingschema.rs:224-231 | The order of names is that of their first differing byte, a prefix first. |
| PropMap.WritePropmapBin | tools/wingschema.rs:204-257 | Builds the blob exactly if the names are distinct: header, records, offsets in name order, ordinals by id, and the hash table. |
| PropIndex.New | src/propindex.rs:100-122 | The one index the bytes are laid out as, and none for bytes laid out as no index. |
| PropIndex.BlobHolds | tools/wingschema.rs:248-256 | A built blob is laid out as the index of its tables. |
| PropIndex.RawIsEntry | src/propindex.rs:128-139 | The bytes behind an ordinal are the record's name and definition. |
| PropIndex.IdAtIsId | src/propindex.rs:147-150 | The id read from the wire bytes is the record's. |
| PropIndex.Find | src/propindex.rs:160-177 | Terminates and returns a name's ordinal exactly if a record has the name. |
| PropIndex.OrdinalIsRank | src/propindex.rs:15-17 | An ordinal is the number of names before it, and names rise strictly. |
| PropIndex.PartitionPoint | src/propindex.rs:71-82 | The binary search finds the first index at which the predicate fails. |
| PropIndex.ById | src/propindex.rs:196-209 | Exactly the entries with that signed id, in name order, or none if there is none. |
| PropIndex.BuildAndLookUp | src/propindex.rs:160-186 | A built map answers like the plain map from names to definitions. |
| Osc.PushOscString | src/osc.rs:146-150 | Text, a terminator and zero padding to a multiple of four. |
| Osc.PushOscBlob | src/osc.rs:155-160 | Length, data and zero padding. |
| Osc.Encode | src/osc.rs:174-216 | The message's layout with zeros for padding; refuses embedded NULs and packets over 32 KiB. |
| OscDecode.ReadOscString | src/osc.rs:220-237 | A string at the cursor, or a refusal; the cursor stays inside the packet. |
| OscDecode.ReadBlob | src/osc.rs:261-275 | A blob at the cursor; negative, truncated and unpadded ones are refused. |
| OscDecode.Decode | src/osc.rs:284-318 | The decoder's result over any bytes, with every index in range. |
| OscDecode.DecodedIff | src/osc.rs:277-318 | A packet decodes to a message exactly if it is laid out as that message, tagged or bare, with any bytes for padding. |
| OscDecode.RoundTrip | src/osc.rs:174-318 | Decoding an encoded message gives it back exactly if its address starts with a slash; otherwise it is refused. |
| OscDecode.FieldsAreAligned | src/osc.rs:144-160 | Every field starts at a multiple of four. |
| OscNodes.FormatNodePairs | src/osc.rs:397-417 | Accepts exactly local leaf names and comma-free values and joins them. |
| OscNodes.DumpUndoesFormat | src/osc.rs:700-717 | A dump of formatted pairs parses to the same pairs, with or without the trailing comma. |
| Publish.StageAll | tools/atomic_write.rs:48-64 | Every output is in a temporary file, or nothing named has changed. |
| Publish.BackUpAll | tools/atomic_write.rs:66-98 | Every destination seen is moved to a backup, or, if one cannot be, all that restore without an error are back; the destinations there and not seen are listed. Without a fault this fails only if a temporary name is in use, and leaves none behind. |
| Publish.RestoreBackups | tools/atomic_write.rs:77-85 | Every original whose restore raised no error is back. |
| Publish.UndoPublish | tools/atomic_write.rs:100-122 | After undoing a half-done publish, a destination without a rollback error is as it was exactly unless it was there unseen and had been replaced. |
| Publish.PublishOutputs | tools/atomic_write.rs:36-132 | On success every destination has its new contents. On failure a destination without a rollback error has its old contents or absence if and only if it is not one that was there, that the existence probe missed, and that was renamed over before the failing rename; without rollback errors all are as they were if and only if there is no such destination. Nothing else is touched. Without a fault of an operation it fails only if a destination is irregular or a temporary name is in use, always if one is irregular, with nothing to roll back, and no temporary file stays behind. |
| Publish.UnseenDestinationIsLost | tools/atomic_write.rs:66-122 | An operation-by-operation run, from any files holding the destination, in which the probe misses it and it is lost without a rollback error. |

## Left out

- Sockets, name resolution, discovery, the firmware probe and real clocks: only their outcomes are modelled, as nondeterministic choices.
- Poisoned mutexes, caching of parsed definitions, `Drop`, and the contents of the shipped property map.
- Command-line tools, JSON output, descriptions, model selection for a dump, value comparison with tolerances, meter scaling: thin layers over the cores above.
- The unlocked taint checks of single set and request calls: the fence is about bulk batches only.
- The count of clones waiting to reconnect: it only makes a dump stop early.
- The meter socket and which report id the meter keepalive renews.
- The reconnect's backoff between attempts: every attempt may fail or succeed.
- OSC client state, subscriptions, retries and reply matching.
- Outside.Read: the line may be quiet only finitely often, so a read without a time limit that waits for ever is not a run of the model.
- GetNodeDefinitions: on a timeout the definitions accepted so far are not given back, as in the code.
- PublishOutputs: other programs changing the same files, and two outputs with one path, are outside the model; temporary names differ from the destinations' names.
- PushEntry: says what bytes are appended for names or definitions over 65535 bytes, whose lengths the code cuts to 16 bits, but not how such bytes read back.
- WritePropmapBin: raw entries that are not a sequence of records make the code panic; they are excluded. Find and ById are about blobs a builder wrote.
