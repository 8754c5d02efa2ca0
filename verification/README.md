# A verified model of mock-amqp-server

The server is an AMQP 0-9-1 mock broker: it decodes frames from client connections, keeps exchanges, queues,
consumers and acknowledgements for inspection, and pushes messages to consumers on request of its HTTP side. This
project models the whole path from raw octets to broker state and proves what it is for.

| part | files |
|---|---|
| octets, big-endian integers, Python slices, results that may raise | `Wrappers`, `Bytes` |
| field tables: tagged values, nested tables and arrays | `Values`, `ItemCodec`, `ItemLoops`, `ItemOctets` |
| method arguments driven by a format string, bits packed into octets | `ArgumentCodec`, `ArgumentRoundTrip`, `ArgumentLoops`, `ArgumentOctets` |
| the property list of a content header | `Properties`, `HeaderRoundTrip` |
| frames, client requests, server replies, transports | `Methods`, `Frames`, `FrameOctets`, `Replies`, `ReplyOctets`, `Senders`, `Pushes`, `Requests` |
| the broker: calls, runs, histories, consumers, waiters, the mutable object | `Broker`, `BrokerHistory`, `Consumers`, `ConsumerHistory`, `Waiters`, `BrokerState`, `Polling` |
| one connection: handshake, channels, buffer, the mutable object | `Session`, `Chunks`, `Handshake`, `Login`, `Service`, `Channels`, `Interleaving`, `Streams`, `Answers`, `Messages`, `Tracker` |
| across the parts | `EndToEnd`, `Pipelining`, `Framing`, `Reachable` |

How the model reads:

- An octet is 0..255 and text is its encoded octets. An exception is a `Raised` result (or `Bad`, `Raise`, `Threw`)
  that carries the state it leaves behind; `Error` names the Python exception.
- Code that the source writes as loops over changing variables is a method with that loop, proved equal to a
  recursive function (`...Loop`); what the code promises is proved of the function. `State`, `TrackerProtocol`,
  `Message` and the transport are classes. `State` carries a ghost history of its calls and `TrackerProtocol` is
  proved to do, byte for byte, what `Session.DataReceived` says.
- A transport is a log of what was written and a closing flag that is never taken back; writes after closing are
  still logged. `sent` is the same log told reply by reply, and `Wire(sent)` its octets. A consumer holds the
  transport its pushes go to.
- A random delivery tag is any number in 1..2^31, and the queue that the iteration over a set yields first is any
  member of the set.
- `Session.Fact` records what a connection was shown (headers compared, answers of `check_credentials`, frames
  compared with tune-ok and open), so that the handshake theorems speak of evidence and not only of states.

- Reader and writer share the constants of the protocol, so round trips alone would not notice a wrong one. The
  `...Octets` modules, `Service` and `Login` state what stands on the wire, and what a client gets for it, in octets.

Where the code and what one would expect of it differ, the model follows the code:

- `loads` believes after every bit that seven bits are left, so a ninth consecutive bit reads as false and the second
  octet is not read; `dumps` writes a timestamp before the bits that precede it; an unknown letter is passed over
  by `dumps` and refused by `loads`. `RoundTripExactlyWhenRegular` gives the exact formats that survive.
- `data_received` accepts the protocol header only when it is alone in the buffer (`HeaderMustBeAlone`).
- Whether a cut between two calls of `data_received` can be seen depends on closing. A channel-level close does not end
  the loop, so frames behind it are handled when they come in the same call and never otherwise, since nothing more is
  handed over once the transport is closing (`CloseShowsExactly`, with octets in `CutBehindChannelClose`).
  `NoCutShowsExactly` says for which bytes, from tune-ok on, no cut at all can be seen; in any state none can that a
  single call would end waiting with the transport open (`OpenInAnyChunks`).
- After an accepted start-ok `data_received` returns with bytes left and the transport open, so the cut shows there too:
  `CutShowsExactly`, with octets in `CutBehindStartOk`.
- Channels are served in every state of the parser: a client may publish before its credentials have been checked
  (`ChannelsServedInAnyState`).
- A reply is written on channel `0, n`, so channels above 255 can never be opened (`OnlySmallChannelsOpen`).
- A frame of unknown type is taken for an incomplete one (`NoFrameExactly`) and blocks the buffer for good
  (`UnknownTypeBlocks`).
- A message whose exchange does not exist stays on its channel and closes the transport
  (`MissingExchangeKeepsContent`); a later body frame still stores it if the exchange has come to exist, even through
  another channel (`LateExchange`). That is why non-interference of channels asks that each message a channel completes
  find its exchange in the run of the channel's own frames, and it asks nothing else of the exchanges.
- With only dead consumers a publish returns a delivery tag although nothing was pushed; a push that raises leaves the
  dead consumers registered (`ScanReachesFirstLive`). `PushGoesOutExactly` tells from the arguments when a push raises.
- A push that raises behind its deliver leaves three octets of an unfinished frame on the wire, and the stream is then
  no sequence of frames (`UnfinishedFrameBreaksStream`, with an input in `PriorityTooLarge`). A connection has
  written whole frames only exactly if no push did that (`WholeExactlyWhenClean`).
- Properties are converted before they are written: true is the number 1, and whatever is false is an empty text or
  table (`ConvertedValuesFit`).

## Model

| member | source | states |
|---|---|---|
| ItemCodec.ReadItem | service/serialization.py:102-215 | a successful read ends strictly beyond its offset, so reading any buffer terminates |
| ItemCodec.ItemRoundTrip | service/serialization.py:102-215 | wherever the bytes written for a well-formed value stand in a buffer, reading there gives the value and the offset just after them |
| ItemCodec.ScalarRoundTrip | service/serialization.py:436-473 | the same for strings, booleans, 32 and 64 bit integers, doubles, decimals, timestamps and void, each under the code the writer chose |
| ItemCodec.TableRoundTrip | service/serialization.py:395-415 | a table with distinct keys is rebuilt entry for entry and in order |
| ItemCodec.EntriesRoundTrip | service/serialization.py:180-185 | the loop over the entries of a nested table ends exactly on its limit inside the larger buffer |
| ItemCodec.ArrayRoundTrip | service/serialization.py:418-433 | an array is read back element for element |
| ItemCodec.ItemsRoundTrip | service/serialization.py:192-194 | the loop over the elements of a nested array ends exactly on its limit |
| ItemCodec.WritableExactlyWhenEncodable | service/serialization.py:436-475 | a value can be written if and only if all its lengths and numbers fit and nothing foreign is inside, and its length is then the computed size |
| ItemCodec.ItemLocality | service/serialization.py:102-215 | a read that stays inside the buffer depends only on the bytes between its two offsets, wherever they stand |
| ItemCodec.ScalarLocality | service/serialization.py:111-173 | the same for every scalar code, including those the writer never uses |
| ItemCodec.TableLocality | service/serialization.py:174-185 | the same for tables, their limit moving with the window |
| ItemCodec.ArrayLocality | service/serialization.py:186-194 | the same for arrays |
| Values.PutAllDistinct | service/serialization.py:185 | filling a dict with entries of distinct keys keeps all of them in order |
| Values.PutPlaces | service/serialization.py:185 | a known key keeps its place and takes the new value, a new one comes last, nothing else moves |
| Values.LastEntryCounts | service/serialization.py:185 | of entries with the same key the last one counts |
| ItemOctets.ReadsBool | service/serialization.py:196-200 | the octets 0x74 and x, anywhere in a buffer, are read as a boolean, true unless x is 0 |
| ItemOctets.ReadsOneOctet | service/serialization.py:127-133 | 0x62 and 0x42 are an unsigned and a signed octet |
| ItemOctets.ReadsTwoOctets | service/serialization.py:136-142 | 0x55 and 0x73 are two signed octets, 0x75 two unsigned ones |
| ItemOctets.ReadsFourOctets | service/serialization.py:144-150 | 0x49 and 0x69 are four octets, signed and unsigned, most significant first |
| ItemOctets.ReadsEightOctets | service/serialization.py:152-158 | 0x4C and 0x6C are eight octets, signed and unsigned |
| ItemOctets.ReadsFloats | service/serialization.py:160-166 | 0x66 and 0x64 are four and eight octets of a float |
| ItemOctets.ReadsDecimal | service/serialization.py:168-173 | 0x44 is a scale and a signed coefficient |
| ItemOctets.ReadsTimestamp | service/serialization.py:201-205 | 0x54 is eight octets of seconds, ValueError beyond the year 9999 |
| ItemOctets.ReadsVoid | service/serialization.py:206-207 | 0x56 is None |
| ItemOctets.ReadsText | service/serialization.py:112-116 | 0x53 is four octets of length and the text, or what the buffer still has of it |
| ItemOctets.ReadsSmallTable | service/serialization.py:175-194 | 0x46 and 0x41 are a table and an array: the octets of two small ones |
| ItemOctets.ReadsNested | service/serialization.py:175-194 | behind 0x46 and 0x41 stands any table and any array |
| ItemOctets.ReadsNothingElse | service/serialization.py:208-214 | every other type code raises FrameSyntaxError |
| ItemOctets.ReadsBeyondEnd | service/serialization.py:102-215 | a buffer that ends too early raises IndexError for the code and StructError for the number behind it |
| ItemOctets.CodeWritten | service/serialization.py:436-473 | the type code that is written for each kind of value, integers beyond 31 bits being the long ones |
| ItemOctets.SmallValuesWritten | service/serialization.py:436-473 | the octets of booleans, None and two negative numbers |
| ItemLoops.WriteTableLoop | service/serialization.py:395-415 | the loop writes what the recursive specification says, length prefix last |
| ItemLoops.WriteArrayLoop | service/serialization.py:418-433 | likewise for arrays |
| ItemLoops.WriteItemInto | service/serialization.py:436-475 | likewise for any value |
| ItemLoops.ReadTableLoop | service/serialization.py:174-185 | the loop to the limit, overwriting repeated keys, reads what the specification says |
| ItemLoops.ReadArrayLoop | service/serialization.py:186-194 | likewise for arrays |
| ItemLoops.ReadItemLoop | service/serialization.py:102-215 | likewise for any value |
| ArgumentCodec.Loads | service/serialization.py:218-313 | loading never moves back and gives one value of the right kind and range per letter |
| ArgumentCodec.LoadsLocality | service/serialization.py:218-313 | a load that stays inside the buffer depends only on the bytes it covers |
| ArgumentRoundTrip.RoundTripExactlyWhenRegular | service/serialization.py:218-313 | loads recovers every writable list of values, anywhere in a buffer, with the exact end offset, if and only if the format has known letters, no run of more than eight bits and no timestamp after a bit |
| ArgumentRoundTrip.LoadsUndoesDumps | service/serialization.py:323-392 | at every point of the two loops reader and writer are in step, inside a run of bits too |
| ArgumentRoundTrip.ProbesMisread | service/serialization.py:244-251 | the first letter that breaks the rule is misread |
| ArgumentRoundTrip.FormatsThatLoseValues | service/serialization.py:388-389 | nine bits, a bit before a timestamp, and an unknown letter each lose values |
| ArgumentRoundTrip.OneRoundTrip | service/serialization.py:353-389 | each single argument is read back as dumps took it: a bit by its truth, a bool as 1 or 0, every false value as the empty string, table or array |
| ArgumentRoundTrip.OctetStep | service/serialization.py:347-352 | bits are packed low first: adding a bit at the next place keeps the places below |
| ArgumentLoops.DumpsLoop | service/serialization.py:323-392 | the loop with its pending bits writes what the recursive specification says |
| ArgumentLoops.LoadsLoop | service/serialization.py:218-313 | the loop with its octet being shifted reads what the specification says |
| ArgumentOctets.LoadsNumbers | service/serialization.py:252-267 | o, B, l and L are one, two, four and eight octets, unsigned, most significant first |
| ArgumentOctets.LoadsFloatAndTimestamp | service/serialization.py:268-310 | f and T are four octets of a float and eight of seconds |
| ArgumentOctets.LoadsShortText | service/serialization.py:272-277 | s is one octet of length and the text, or what the buffer still has of it |
| ArgumentOctets.LoadsLongText | service/serialization.py:278-283 | S is four octets of length and the text |
| ArgumentOctets.LoadsNested | service/serialization.py:284-304 | F and A: the octets of a small table and a small array |
| ArgumentOctets.LoadsBits | service/serialization.py:244-251 | three bits are the three lowest bits of one octet, lowest first |
| ArgumentOctets.DumpsBits | service/serialization.py:346-352 | three bits are written as 1, 2 and 4 of one octet |
| ArgumentOctets.LoadsNothingElse | service/serialization.py:311-311 | every other letter raises FrameSyntaxError |
| ArgumentOctets.LoadsBeyondEnd | service/serialization.py:218-313 | a buffer that ends too early raises StructError for a number or a length and TypeError for a bit |
| ArgumentOctets.TakenAs | service/serialization.py:346-388 | how dumps converts before it writes: a bit by its truth, a bool as a number, a false value as an empty text, table or array |
| ArgumentOctets.NotDumped | service/serialization.py:353-389 | which exception a value of the wrong kind or size raises under each letter |
| Properties.DecodersAgree | service/serialization.py:478-550 | on every payload of at least 14 octets the hand-written and the table-driven property decoder give the same map, end offset or exception |
| Properties.RowsAreLoads | service/method.py:83-96 | from any row on, reading row by row is loading the gathered format and zipping it with the gathered keys |
| Properties.DecodePropertiesBasicRows | service/serialization.py:478-550 | the fourteen conditional reads do what the row-by-row specification says |
| Properties.DecodeHeaderLoop | service/method.py:83-96 | the gathering loop and loads do what the specification of Header says |
| HeaderRoundTrip.PropertiesRecovered | service/sender.py:508-533 | for every subset of the properties and every body size that can be sent, the fixed 14 octets read as class, size and flags, and Header recovers exactly the subset and its values |
| HeaderRoundTrip.FlagBit | service/sender.py:511-516 | in the sum of the bits, the bit of a property is set exactly when the property is there |
| HeaderRoundTrip.FormatRecovered | service/method.py:86-89 | the flags lead Header to the sender's own format and keys |
| HeaderRoundTrip.ArgumentsLayout | service/sender.py:518-526 | the payload is class, weight, size, flags and then the properties |
| Senders.GatherHeaderArguments | service/sender.py:508-526 | the loop over PROPERTIES computes that payload |
| Frames.ReadFrame | service/frame.py:22-85 | a frame that is found takes at least one octet and at most the whole buffer |
| Frames.FrameStable | service/frame.py:22-85 | a frame or an error found at the front of a buffer stays the same when bytes are appended, and so does what follows it |
| Frames.NoFrameExactly | service/frame.py:22-85 | no frame is found exactly when bytes are missing or a whole frame is of a type that is not known |
| FrameOctets.CutByOctets | service/frame.py:22-46 | one octet of type, two of channel, four of payload size, the payload, 0xCE; fewer octets are incomplete and another end is an error |
| FrameOctets.KindByOctet | service/frame.py:48-85 | type 1 is a method, 2 a content header, 3 a content body, 8 a heartbeat, and nothing else is known |
| FrameOctets.BadEndRaises | service/frame.py:42-43 | a whole frame that does not end in 0xCE raises InvalidFrameError |
| FrameOctets.HeaderByOctets | service/frame.py:61-76 | where class, body size and flags stand in a content header |
| FrameOctets.MethodByOctets | service/frame.py:48-57 | where the method id stands in a method frame |
| FrameOctets.MethodStandsForOctets | service/method.py:323-343 | the class and method octets of each of the fifteen calls |
| FrameOctets.OtherMethodsUnknown | service/method.py:323-343 | every other method id raises KeyError |
| Requests.RequestFound | service/frame.py:48-57 | each of the fifteen requests, laid out by a client on any channel and whatever follows it, is found as the call it carries, with its channel and its size |
| Requests.ArgumentsReadBack | service/method.py:114-320 | the arguments laid out after the method id are read back whole and in order |
| Requests.FormatRegular | service/method.py:114-320 | the format of every request is one that survives the round trip |
| Requests.CallDecoded | service/method.py:323-343 | the dispatch on the method id makes the call of exactly those arguments |
| Service.AckByOctets | service/method.py:285-307 | the literal octets of an ack and of a nack are found as these calls, with tag, multiple and requeue |
| Replies.CutEnveloped | service/sender.py:133-155 | the size arithmetic and end marker of read_frame cut a written frame exactly |
| Replies.WrittenIsOneFrame | service/sender.py:25-555 | every sender call writes one frame of its kind, channel and payload, whatever follows |
| Replies.OutgoingStreamWellFramed | service/sender.py:25-555 | any sequence of replies written whole is cut into exactly one frame per reply, in order, nothing left over |
| Framing.WholeExactlyWhenClean | service/protocol.py:86-407 | over every run of a connection all it has written are whole frames if and only if each push could be written or already its deliver could not |
| Framing.CleanRunIsFramed | service/sender.py:25-555 | the stream of such a run is cut into exactly one frame per reply, in order, nothing left over |
| Framing.PushIsWholeExactly | service/protocol.py:379-407 | a push leaves whole frames if and only if it fits or its deliver does not |
| Framing.UnfinishedFrameBreaksStream | service/sender.py:498-533 | a stream of whole frames and the three octets of an unfinished one cannot be cut into frames with nothing left over |
| Framing.PriorityTooLarge | service/serialization.py:353-355 | a message with priority 300: the deliver goes out, then three octets of the header, and the stream is broken |
| Replies.ConnectionRepliesWritten | service/sender.py:133-141 | the replies of the connection machine can be written if and only if the channel is below 256 |
| ReplyOctets.TuneWritten | service/sender.py:158-188 | the octets of tune: channel-max 0, frame-max 131072, heartbeat 10 |
| ReplyOctets.BareReplies | service/sender.py:25-405 | the octets of heartbeat, the two close-oks, exchange declare-ok, bind-ok and qos-ok |
| ReplyOctets.OpenOksWritten | service/sender.py:191-255 | the octets of the two open-oks |
| ReplyOctets.TagsWritten | service/sender.py:121-155 | consume-ok and cancel-ok repeat the consumer tag |
| ReplyOctets.QueueDeclareOkWritten | service/sender.py:312-351 | queue declare-ok repeats the name, then two counts of zero |
| ReplyOctets.ContentWritten | service/sender.py:492-555 | a content header begins with 2, a content body with 3, then the body as it is |
| ReplyOctets.UnfinishedWritten | service/sender.py:498-549 | what an unfinished content frame leaves |
| ReplyOctets.RepliesRaise | service/sender.py:25-555 | why a reply cannot be written: ValueError for a channel above 255, otherwise what its arguments or its length raise |
| ReplyOctets.StartRead | service/sender.py:40-95 | start reads as version 0-9, the peer properties, the two mechanisms and the locale |
| ReplyOctets.PeerPropertiesSay | service/sender.py:43-60 | what the peer properties and capabilities say |
| Senders.Send | service/sender.py:121-155 | the successive writes add up to one whole reply, or nothing when something raises |
| Senders.SendContentHeader | service/sender.py:492-533 | a content header is written whole, or leaves its first three octets, or nothing |
| Senders.SendContentBody | service/sender.py:536-555 | likewise for a content body |
| Senders.SendPush | service/protocol.py:379-407 | a push adds deliver, header and body, or what was written when one of them raised |
| Pushes.PushGoesOutExactly | service/protocol.py:379-407 | a push does not raise if and only if channel, tags, exchange, body and each standard property fit their places and the header fits a frame |
| Pushes.ConvertedValuesFit | service/serialization.py:353-385 | true fits as the number 1, 0 as an empty text and false as an empty table |
| Pushes.HeaderWritten | service/sender.py:492-533 | a content header can be written if and only if each standard property fits its letter and the computed length fits a frame |
| Pushes.DeliverWritten | service/sender.py:446-489 | a deliver can be written if and only if its channel, names and delivery tag fit |
| Pushes.PushIsThreeFrames | service/protocol.py:379-407 | such a push is exactly three frames on the consumer's channel: deliver, whose arguments read back as tag, delivery tag, false, exchange and empty key; a header that opens to the size of the body and exactly the standard properties; the body unchanged |
| Broker.EveryRunConsistent | service/state.py:17-127 | in every reachable state bound exchanges and queues exist, the default exchange exists and is bound to exactly the declared queues, and consumer tags are distinct |
| Broker.ApplyKeepsConsistent | service/state.py:77-350 | every call keeps that invariant |
| Broker.ExchangeTypeStable | service/state.py:85-95 | between resets an exchange stays and keeps its type |
| BrokerHistory.RunNames | service/state.py:85-127 | declared queues, existing exchanges and bindings are exactly those that calls since the last reset have made |
| BrokerHistory.QueueHistory | service/state.py:180-225 | each queue's log is in order the stores on exchanges it was bound to at that moment and the direct stores and publishes since its last purge or reset |
| BrokerHistory.ExchangeHistory | service/state.py:180-244 | each exchange's log is in order its stores and publishes since its last purge or reset |
| BrokerHistory.ExchangeTypeIsFirst | service/state.py:85-95 | an exchange has the type of the call that created it |
| ConsumerHistory.RegisterPlaces | service/state.py:129-144 | registering on an existing queue puts a new tag behind the others and a known one in its place, moves nobody else and changes nothing else |
| ConsumerHistory.MembersStep | service/state.py:129-341 | who is a consumer of a queue after any one call |
| ConsumerHistory.QueueConsumers | service/state.py:129-341 | after any run a queue's consumers are exactly those registered on it while declared and since neither replaced, nor dropped dead by a publish, nor reset |
| ConsumerHistory.PublishLeavesOthers | service/state.py:249-283 | a publish drops nobody from a queue it does not scan |
| ConsumerHistory.RegisteredIsReached | service/state.py:129-341 | a publish in a queue with a consumer registered before and still live reaches some consumer, whatever calls came between |
| BrokerState.StateTellsItsHistory | service/state.py:17-52 | the mutable State object holds these histories of its own recorded calls at any time |
| Consumers.ScanReachesFirstLive | service/state.py:249-287 | the scan of a queue goes to its first consumer that is not closing; if that push fits its places it has the tag that is returned and exactly the dead consumers before it are dropped, and otherwise it raises and drops nobody; nobody is pushed to when all are closing, all are then dropped, and the drawn tag is returned only if there was any |
| Consumers.PublishReachesFirstLive | service/state.py:227-341 | the same of either publish and the queue it scans; one that finds no queue returns no tag and changes no consumers |
| Consumers.PublishDelivers | service/state.py:266-275 | a publish puts on the wire of the consumer it reaches three frames on its channel that read as its own tag, the returned delivery tag, the exchange, the properties and the body |
| Consumers.DirectPushNames | service/state.py:321-328 | a push straight from a queue names the exchange "dummy-exchange" |
| Consumers.SameConsumerUntilDisturbed | service/state.py:227-341 | over any run, after a publish whose push fits, later publishes of either kind that scan the same queue reach the same consumer until its transport closes, its tag is registered again or the state is reset |
| Consumers.NoPushToClosing | service/state.py:227-341 | in every run each push, by either publish, goes to a consumer that is registered in the scanned queue and not closing at that moment, and puts nothing on any other wire |
| Consumers.ClosedWireStays | service/state.py:254-283 | from the moment a transport is closing no run pushes anything more to it |
| Waiters.WaitSucceedsExactly | service/state.py:362-401 | with any calls between looks and no reset, a wait succeeds exactly when its event happened before its last look, and then at the first look after it |
| Waiters.SeenExactlyWhenStanding | service/state.py:343-350 | one look succeeds exactly when the event happened and no reset followed |
| Waiters.LastAttempt | service/state.py:77-83 | the record of a user is what the last attempt since the reset came to, true only for the default account |
| Waiters.AuthenticationAnswer | service/state.py:352-360 | the authentication wait answers true exactly when the last attempt of that user at the look that ends it was the default account with its password |
| Polling.Wait | service/state.py:352-401 | each of the waits, looking at the State object while other coroutines call it and close transports between looks, returns at the first look that sees its goal with the answer of that moment, and times out after exactly its number of looks; with no reset it succeeds exactly when its event happened before its last look |
| BrokerState.State.constructor | service/state.py:18-33 | a new State is the initial broker with an empty history |
| BrokerState.State.Reset | service/state.py:36-52 | a reset is the initial broker again |
| BrokerState.State.CheckCredentials | service/state.py:77-83 | answers whether the password is the user's, and records the answer |
| BrokerState.State.DeclareExchange | service/state.py:85-95 | false exactly when the exchange exists with another type |
| BrokerState.State.DeclareQueue | service/state.py:97-112 | a new queue is empty and bound to the default exchange |
| BrokerState.State.BindQueue | service/state.py:114-127 | binds exactly when queue and exchange exist |
| BrokerState.State.RegisterConsumer | service/state.py:129-144 | puts a new tag behind the consumers of the queue and a known one in its place, if the queue exists |
| BrokerState.State.DeleteMessagesOfQueue | service/state.py:146-151 | empties the log of an existing queue |
| BrokerState.State.DeleteMessagesOfExchange | service/state.py:159-163 | empties the log of an existing exchange |
| BrokerState.State.StoreMessage | service/state.py:180-205 | the loop over the bound queues finds every one of them and appends the message to each, and to the exchange |
| BrokerState.State.StoreMessageInQueue | service/state.py:207-225 | appends the message to an existing queue |
| BrokerState.State.ScanConsumers | service/state.py:253-283 | the scan with its deferred deletions pushes and cleans as specified, and only the reached transport is written to |
| BrokerState.State.PublishMessage | service/state.py:227-287 | logs in the exchange and scans one bound queue |
| BrokerState.State.PublishMessageInQueue | service/state.py:289-341 | logs in the queue and scans it; no closing flag changes |
| BrokerState.State.MessageAck | service/state.py:343-344 | adds the tag to the acknowledged ones |
| BrokerState.State.MessageNack | service/state.py:346-350 | adds the tag to the requeued or the refused ones |
| Chunks.SplitInvisible | service/protocol.py:86-160 | after the protocol header, two calls of data_received leave the state, channels, buffer, broker, replies and outcome of one call on the joined bytes whenever the first waits for more, and otherwise the second chunk just stays in the buffer |
| Chunks.FeedIsOneCall | service/protocol.py:86-160 | from waiting for tune-ok on, chunks handed over until the transport is closing end as one call on all the bytes if and only if it is not the case that a call closed the transport without returning and a frame stood behind |
| Chunks.NoCutShowsExactly | service/protocol.py:86-240 | from waiting for tune-ok on, every way of cutting the bytes ends as one call does if and only if no frame closes the transport, without ending the loop, in front of another frame |
| Chunks.ChunkingInvisible | service/protocol.py:86-240 | then two ways of cutting the same bytes cannot be told apart |
| Chunks.CloseShowsExactly | service/protocol.py:86-240 | where a first call closes the transport without returning early, one call on all the bytes comes to the same as stopping there if and only if what then stands in the buffer is no frame yet |
| Chunks.OpenInAnyChunks | service/protocol.py:86-160 | in any state past the protocol header: if one call on all the bytes would end waiting for more with the transport open, every way of cutting them ends in the same state, broker and buffer with all chunks handed over |
| Chunks.EarlyReturns | service/protocol.py:117-156 | a call returns early only with the transport closing or having just accepted a start-ok |
| Chunks.CutShowsExactly | service/protocol.py:103-139 | where a call returns early, one call and two calls come to the same if and only if what then stands in the buffer is no frame yet |
| Chunks.StartOkThenMore | service/protocol.py:128-139 | behind an accepted start-ok, whatever follows stays in the buffer in one call and is drained in a call of its own, which comes to the same if and only if it is no frame yet |
| Pipelining.CutBehindStartOk | service/protocol.py:128-145 | the octets of a start-ok for guest and of a tune-ok: in one call the tune-ok is left lying, in two calls it is handled, the transport open both times |
| Pipelining.CutBehindChannelClose | service/protocol.py:235-240 | the octets of a channel close and of a publish on another channel: in one call the publish is handled, cut between the two it is never handed over |
| Login.PlainOffers | service/protocol.py:176-182 | a PLAIN response of identity, user and password without NUL offers exactly that user and password |
| Chunks.UnknownTypeBlocks | service/frame.py:22-85 | with a whole frame of unknown type in front nothing that arrives later, in whatever chunks, is ever handled |
| Chunks.TypeFourIsUnknown | service/frame.py:47-85 | an empty frame of type 4 on any channel is such a frame |
| Chunks.HeaderMustBeAlone | service/protocol.py:162-174 | the protocol header with anything behind it closes the connection |
| Chunks.ParserStays | service/protocol.py:34-43 | the parser state only moves forward |
| Handshake.HandshakeInOrder | service/protocol.py:86-160 | over every run start, tune and open-ok have been sent exactly as far as the parser state says, and the peer has passed the matching milestones in order |
| Handshake.HandshakeRepliesOnce | service/protocol.py:94-160 | each of the three is sent at most once and in this order |
| Handshake.OpenedMeansAuthenticated | service/protocol.py:128-160 | an opened connection has shown the exact header, then credentials that were accepted, then tune-ok, then open |
| Login.HandshakeCompletes | service/protocol.py:86-160 | header, an accepted PLAIN start-ok, tune-ok and open, each handed over by itself, open the connection with start, tune and open-ok sent |
| Login.HeaderAnswered | service/protocol.py:94-101 | exactly the eight octets of AMQP 0-9-1 are answered with start; fewer are kept; anything else is discarded and closes the transport |
| Login.LoginRefused | service/protocol.py:128-135 | another mechanism or refused credentials close the transport, send nothing, leave the parser waiting and record the attempt |
| Login.LoginAccepted | service/protocol.py:128-139 | accepted credentials are recorded and answered with tune |
| Login.LoginUnreadable | service/protocol.py:176-195 | a response that cannot be taken apart and any frame but start-ok raise and change nothing |
| Login.PlainNeedsTwoNuls | service/protocol.py:181-182 | a PLAIN response is taken apart if and only if it has two NULs |
| Login.TuneOkAndOpen | service/protocol.py:141-160 | tune-ok and open lead on, open being answered with open-ok |
| Login.WrongFrameCloses | service/protocol.py:141-156 | any other frame there closes the transport, sends nothing and leaves the parser waiting |
| Login.OpenedPassesOver | service/protocol.py:117-160 | an opened connection passes over everything on channel 0 but close |
| Login.CloseAnswered | service/protocol.py:122-126 | close is answered with close-ok in every state and closes the transport |
| Login.HeartbeatAnswered | service/protocol.py:112-115 | a heartbeat is answered with a heartbeat |
| Login.BadFrameThrows | service/protocol.py:103-110 | bytes that are no frame raise and stay in the buffer |
| Login.FirstBroker | service/state.py:17-33 | the account, the exchange and the empty records a broker starts with |
| Channels.FrameMoves | service/protocol.py:204-377 | a frame changes only its own channel, as that channel alone and the existence of its exchange determine, and raises only when it opens a channel above 255 |
| Channels.FrameIsCall | service/protocol.py:204-377 | a frame does one State call or none |
| Service.ExchangeDeclareServed | service/protocol.py:244-261 | declaring creates a missing exchange, closes the transport on another type, and is answered in any case |
| Service.QueueDeclareServed | service/protocol.py:263-278 | declaring creates a missing queue, empty and bound to the default exchange, and is answered |
| Service.QueueBindServed | service/protocol.py:280-295 | binding needs both ends; otherwise the transport closes without an answer |
| Service.QosAndCancelServed | service/protocol.py:297-348 | qos and cancel are answered and change nothing |
| Service.ConsumeServed | service/protocol.py:313-328 | consuming registers the connection under tag and channel if the queue exists, and is answered in any case |
| Service.PublishServed | service/protocol.py:306-311 | a publish waits for its content header |
| Service.AckServed | service/protocol.py:329-340 | an ack and a nack record their tag in exactly one of the three sets |
| Service.OthersIgnored | service/protocol.py:242-348 | other requests on an open channel are passed over |
| Service.ChannelOpenServed | service/protocol.py:216-233 | a channel is opened and answered |
| Service.OpenExpected | service/protocol.py:216-219 | anything else on such a channel closes the transport without an answer |
| Service.OpenAbove255 | service/protocol.py:216-233 | opening a channel above 255 raises ValueError and sends nothing |
| Service.ChannelCloseServed | service/protocol.py:235-240 | closing a channel is answered, forgets it and closes the transport |
| Service.ContentExpected | service/protocol.py:350-360 | what a channel does not wait for is passed over |
| Channels.ChannelsServedInAnyState | service/protocol.py:117-120 | a frame of a channel is treated alike in every state of the parser, which it leaves as it is |
| Interleaving.ChannelsDoNotInterfere | service/protocol.py:103-120 | in any interleaving of frames that ends neither early nor with an exception, a channel comes to the state and makes the State calls its own frames alone would lead to, provided each message it completes finds its exchange in the run of its own frames, and finds it in the interleaving too |
| Interleaving.RunIsItsCalls | service/protocol.py:204-377 | the broker a run of frames ends with is what its State calls make of the one it began with |
| Interleaving.ExactReassembly | service/protocol.py:350-377 | body frames for an existing exchange end in one store call with exactly the bytes up to the first frame where the length is the announced one and the channel open, or, if no prefix hits it, with the broker untouched and all bytes kept; nothing else changes |
| Interleaving.MissingExchangeKeepsContent | service/protocol.py:366-374 | without the exchange nothing is stored, the channel keeps all the bytes, and the transport closes exactly if some prefix hits the announced size |
| Interleaving.LateExchange | service/protocol.py:366-374 | a message kept that way is stored by a later empty body frame once another channel has declared the exchange, which its own frames alone would not do |
| Streams.DrainRunsFrames | service/protocol.py:103-160 | draining a buffer is running the frames it is cut into, with the buffer left exactly behind the last frame taken |
| Streams.SieveKeepsFrames | service/protocol.py:103-120 | the octets of the frames of channel n, taken out of a buffer of many channels, are cut into exactly these frames |
| Streams.BuffersDoNotInterfere | service/protocol.py:103-120 | non-interference for octets: draining a buffer of many channels brings channel n where draining only its own octets does, with the same State calls |
| Answers.RequestAnswered | service/protocol.py:242-348 | on an open channel each request gets exactly one answer on its channel, with the method number after its own; publish, ack, nack and a refused bind get none |
| Answers.DispatchInjective | service/method.py:323-343 | a decoded call carries the id it was dispatched on |
| Messages.Message.constructor | service/message.py:2-4 | a message starts empty with its header |
| Messages.Message.AddContent | service/message.py:6-7 | appends the bytes |
| Tracker.TrackerProtocol.constructor | service/protocol.py:56-71 | a new connection waits for the protocol header with nothing sent |
| Tracker.TrackerProtocol.DataReceived | service/protocol.py:86-160 | the loop over the buffer leaves buffer, session, broker and exception as specified |
| Tracker.TrackerProtocol.CheckProtocolHeader | service/protocol.py:162-174 | answers whether the buffer is the header; keeps a buffer that is too short, and otherwise empties it and closes on a mismatch |
| Tracker.TrackerProtocol.CheckStartOk | service/protocol.py:176-195 | checks exactly the credentials the mechanism offers, refuses other mechanisms, raises on unreadable ones |
| Tracker.TrackerProtocol.UpsertChannel | service/protocol.py:204-210 | an unknown channel starts waiting for its open |
| Tracker.TrackerProtocol.TreatChannelFrame | service/protocol.py:212-377 | every branch changes channel dict, message, State and transport as specified |
| Tracker.TrackerProtocol.TreatOpened | service/protocol.py:242-348 | the branches of an opened channel |
| Tracker.TrackerProtocol.TreatBody | service/protocol.py:357-377 | a body frame extends the message and stores it when complete |
| EndToEnd.PublishArrives | service/sender.py:492-555 | the octets of one content header and of a body in any number of parts, in any chunks handed to an open connection, add exactly one message with those properties and the whole body, empty or not, to the logs of the exchange and of exactly the queues bound to it, change nothing else in the broker, and reopen the channel |
| EndToEnd.MessageReassembled | service/protocol.py:350-377 | the octets of any content bodies, in any chunks handed to an open connection: stored and logged at the first where the announced size is hit exactly, and never if none hits it |
| EndToEnd.BodiesParsed | service/frame.py:78-83 | what the body sender writes for each part is cut into exactly these body frames |
| EndToEnd.ContentHeaderReadBack | service/frame.py:61-76 | a sent content header is found with its class, size and exactly its properties |
| EndToEnd.ContentBodyReadBack | service/frame.py:78-83 | a sent content body is found unchanged |
| EndToEnd.AmqplainAgreesWithTableWriter | service/protocol.py:184-188 | the flat decoder finds the two values of a two-entry table of strings at positions 2 and 5 |
| EndToEnd.AmqplainLoginChecked | service/protocol.py:176-195 | a start-ok carrying such a table, its four texts shorter than 128 octets, has exactly these two checked, and goes on only if they are accepted |
| Reachable.OnlySmallChannelsOpen | service/protocol.py:216-233 | whatever a client sends, no channel above 255 is ever opened |
| Reachable.DataIsARun | service/protocol.py:86-160 | whatever a client sends, the broker goes through a sequence of State calls without a reset |
| Reachable.ClientsKeepBindings | service/protocol.py:86-160 | whatever a client sends, the binding invariant is kept |

## Left out

- UTF-8: text is its encoded octets, so the exceptions of decoding and encoding text are not modelled.
- EndToEnd.AmqplainLoginChecked: texts of 128 octets or more are left out, because the response goes through text on
  its way and a length octet above 127 does not survive that.
- Floats and calendar dates: a double is its eight octets, a timestamp whole seconds up to the year 9999.
- ItemCodec.WriteItem: a value read under code `f` is kept as its four octets, and writing it again as a double is not
  modelled; a decimal is the number coefficient / 10^scale, not the representation Python's division picks for it.
- ArgumentCodec.DumpOne: of Python's conversions, `int()` of a text, double or decimal under `B`, integers written under
  `f` and texts or dicts iterated under `A` are refused instead (the service writes no such value), and an object of a
  foreign type counts as true and is refused.
- Python's recursion limit on deeply nested tables.
- Whether asyncio still transmits what is written after a transport has begun to close.
- service/http_protocol.py and service/__main__.py: requests over HTTP appear only as arbitrary State calls between
  steps of a connection.
- `to_json`, `get_messages_of_queue`, `get_messages_of_exchange` and `base64encode_message_in_list_when_appliable`:
  presentation for debugging.
- `GenericContent`: not used by the service.
- The fields no-wait and arguments of exchange declare, which the code takes one place early, and the flags of the
  other declarations: nothing depends on them.
- DEFAULT_USER and DEFAULT_PASSWORD taken from the environment: the account is guest/guest.
- Uniqueness of delivery tags, and that acknowledged tags were delivered: the code promises neither.
- Polling.Wait: the five waits of service/state.py are one method over a goal, and what the other coroutines do during
  each sleep is given to it as a list of calls and closings.
- BrokerState.State.ScanConsumers: the body of the scan is shared by the two publish methods, and the push comes right
  after the loop that the source leaves with `break`.
