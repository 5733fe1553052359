# A model of libreXC's protocol components

The repository connects an Arduino to network services. Several of its parts are self-contained
protocol machines; this project models them in Dafny and proves what each is for. `dafny verify
dfyconfig.toml` checks everything.

| files | component | main result |
|---|---|---|
| `JsonText`, `JsonSyntax`, `JsonSpelling`, `JsonAccepted`, `JsonExtension`, `JsonWriter`, `JsonRoundTrip`, `JsonReader`, `JsonStream`, `JsonServer`, `JsonOutbound` | streaming JSON over TCP | the reader accepts exactly the texts that a grammar spells; for any number of interleaved connections and any chunks, each client's values arrive once, in order, as soon as they are complete; and what is written arrives so at each client |
| `Utf8Validator` | incremental UTF-8 | the packed table recognises exactly the grammar of RFC 3629, and `decode` inverts the encoding |
| `TelnetWire`, `TelnetOptions`, `TelnetConvergence`, `TelnetRefusal`, `TelnetSettings`, `TelnetModem` | RFC 2217 over Telnet | multiplexing round trip; two negotiating peers quiesce and agree, also where one refuses or lacks options; port settings agree from bytes to bytes |
| `Deflate`, `DeflateHandshake` | permessage-deflate (RFC 7692) | after every handshake every message decodes, over whole runs; the condition is exact |
| `WampSession`, `WampInvariant`, `WampAnswers`, `WampInvocations`, `WampLifecycle`, `WampApplication` | WAMP session | the session's invariant over all runs; no future is lost or resolved twice; exactly when steps are sound |
| `LongPoll` | WAMP long-poll transport | exactly-once FIFO delivery; the inactivity bound T to 2T |
| `XorMasker`, `BatchFraming`, `Pbkdf2` | masking, batches, key derivation | agreement with RFC 6455 and RFC 8018; round trips with exact conditions |

`Bits`, `Sequences` and `Wrappers` hold bit arithmetic, pieces of streams and an option type.

Each component has two layers. Functions over values say what one step computes; lemmas prove the
properties of steps and runs. Classes have the program's fields and loops, and their methods are
proved against those functions: the new state is the function of the old one. Methods that carry out
one such step, with neither a loop nor an object to update, have no row below; the lemmas about the
steps do. Every method of `WampApplication.ApplicationSession` ensures that its objects, read by serial
numbers, are in the state that the state machine of `WampSession` says.

## Where the code does not do what one expects

These are theorems of the project, with the condition under which the expectation holds.

- A top-level JSON number that is cut between two chunks arrives as two numbers
  (`JsonStream.CutIndependence`, `NumberCutInTwo`). All other values are safe.
- After a rejection, `validate` of an empty chunk reports valid (`Utf8Validator.Utf8Validator.Validate`).
- `Serial.open` starts its reader before it sends its requests. A half that both sides want is skipped
  if the server's request about it is delivered before the start-up loop comes to it; the server then
  waits in REQUESTED (`TelnetConvergence.Convergence`, `StartupRace`).
- `Serial.open` raises only where its request for RFC 2217 is not answered. A refusal ends the wait too,
  and `open` goes on without RFC 2217 (`TelnetRefusal.OpenGoesOn`, `RefusalOpens`).
- A peer that holds one half of an option but not the other neither obeys nor refuses a request about
  the other half, so that the side that asked waits in REQUESTED (`TelnetOptions.UnheardIsIgnored`).
- A client that sets a modem-state mask with a line but not its change bit can miss that the line falls
  (`TelnetModem.InformedIffPaired`), and a change of the mask in mid-run can leave it with old lines
  (`KeptInformed`). Hardware flow control set after software flow control is reported as software flow
  control (`TelnetModem.ReportedIffNotCovered`).
- A server takes every deflate offer to accept client_no_context_takeover (`Deflate.OfferTransported`);
  decoding does not suffer.
- A second REGISTERED for one registration id leaves its caller's future pending for ever
  (`WampInvariant.RegisteredAgainLoses`). INTERRUPT loses the endpoint's result
  (`WampInvocations.InterruptedResultIsLost`). An exception without arguments, or whose first argument
  cannot be formatted into a byte string, is not answered; its invocation stays open, and its id is
  refused, until an INTERRUPT comes for it or another endpoint that still runs under the id ends
  (`WampInvocations.OpenUntilClosed`, `BareExceptionStaysOpen`).
- A lost older poll makes the long-poll session forget the current one (`LongPoll.WaitingPollGoesOn`,
  `OlderPollLost`).
- An unfinished JSON batch is cut off silently (`BatchFraming.JsonIgnoresTail`); error 3 of the
  MsgPack batch cannot occur.

## Assumptions

- Python 2, as `streamingjson.py` requires: byte strings are Dafny strings, and a string with a
  `\u` escape becomes a sequence of code units.
- The network delivers bytes in order. Which chunk arrives when, which send fails, which settings a
  serial port accepts and what a codec or keyed hash computes are parameters of the lemmas.
- The deflate codec is LZ77 with a bounded history; any token sequence that expands to a message may
  stand for it. Repeated parameters of the header are already grouped by name.
- Handlers and endpoints are numbers, and so are the values that futures resolve to; user callbacks do
  not call back into the session.
- The long-poll timer ticks exactly when it is due. A lost poll was neither finished nor lost before.

## Model

| member | source | states |
|---|---|---|
| `JsonText.Read` | linuino/arduino/streamingjson.py:63-86 | On every text whatever the mutually recursive reader ends, and a value that is read takes at least one character; which texts it reads, and as what, is `JsonAccepted.ReadIffSpelled` |
| `JsonAccepted.ReadIffSpelled` | linuino/arduino/streamingjson.py:63-245 | The reader takes a text with a value iff the text is a spelling of that value, and a number is not continued by what follows. Spellings are trees of tokens that do not mention the reader: six white-space characters and two kinds of comments around each token, escapes with their characters, four hex digits of either case by their values, numbers with at most one dot |
| `JsonAccepted.AcceptedIsSpelled` | linuino/arduino/streamingjson.py:63-86 | It raises iff no beginning of the text is such a spelling |
| `JsonSpelling.EatGaps` | linuino/arduino/streamingjson.py:168-196 | Any white space and comments are skipped, and nothing else of what follows |
| `JsonSpelling.ReadsPieces` | linuino/arduino/streamingjson.py:130-156 | Plain characters, short escapes and code units make a byte string, or a unicode string if there is a code unit and all other characters are ASCII |
| `JsonSpelling.ReadsNumeral` | linuino/arduino/streamingjson.py:114-128 | A sign, digits and at most one dot are read as the int with these decimal digits, or as a float |
| `JsonExtension.ReadExtends` | linuino/arduino/streamingjson.py:63-245 | A value that was read stays the value, with the same characters taken, when more text follows, unless it is a number that runs up to the end |
| `JsonWriter.PassesEscapeEachCharacter` | linuino/arduino/streamingjson.py:288-296 | The successive `replace` passes amount to one escape for each character, with either setting for the forward slash: no pass touches what another put in |
| `JsonRoundTrip.WriteSpells` | linuino/arduino/streamingjson.py:258-310 | The written text is a spelling of the value without any gap, superfluous digit or superfluous backslash |
| `JsonRoundTrip.EscapeCharSpells` | linuino/arduino/streamingjson.py:286-298 | A character is written after a backslash iff its code is 8, 9, 10, 12, 13, 34 or 92, or 47 with the forward slash escaped; the letter is that of the character |
| `JsonRoundTrip.NatSpells` | linuino/arduino/streamingjson.py:299-300 | A number is written with its decimal digits |
| `JsonRoundTrip.ReadInvertsWrite` | linuino/arduino/streamingjson.py:198-245 | A written value, nested to any depth, reads back as what it means, and exactly its own text is taken, whatever follows that does not continue a number |
| `JsonRoundTrip.RoundTrip` | linuino/arduino/streamingjson.py:114-128 | The round trip holds if and only if it is not a top-level number followed by a digit or a dot |
| `JsonRoundTrip.ItemOrderIsForgotten` | linuino/arduino/streamingjson.py:214-236 | Dict items in any two orders are written to texts that read back as the same dict |
| `JsonRoundTrip.PrefixFree` | linuino/arduino/streamingjson.py:63-86 | No proper prefix of a written list, dict, string, true, false or null is readable |
| `JsonReader.Reader.EatWhitespace` | linuino/arduino/streamingjson.py:238-245 | Skips exactly the white space and comments that the reading function skips, and fails as it fails — the loop over `index` against the function on the unread text |
| `JsonReader.Reader.ReadComment` | linuino/arduino/streamingjson.py:168-176 | One comment, of either style |
| `JsonReader.Reader.ReadDoubleSolidusComment` | linuino/arduino/streamingjson.py:190-196 | A `//` comment ends with its line or with the text |
| `JsonReader.Reader.ReadCStyleComment` | linuino/arduino/streamingjson.py:178-188 | A `/*` comment ends with `*/`; a nested opening or a missing end is an error |
| `JsonReader.Reader.ReadLiteral` | linuino/arduino/streamingjson.py:88-112 | true, false and null, compared one character after the other |
| `JsonReader.Reader.ReadNumber` | linuino/arduino/streamingjson.py:114-128 | Digits and dots make an int, a float or an error |
| `JsonReader.Reader.ReadString` | linuino/arduino/streamingjson.py:130-156 | The string literal with its escapes; the end of the text in it is an error |
| `JsonReader.Reader.ReadCodeUnit` | linuino/arduino/streamingjson.py:141-149 | Four hex digits make one code unit |
| `JsonReader.Reader.ReadArray` | linuino/arduino/streamingjson.py:198-212 | The items up to the closing bracket, in order — the loop over `index` against the function on the unread text |
| `JsonReader.Reader.ReadObject` | linuino/arduino/streamingjson.py:214-236 | The members up to the closing brace; the last value of a repeated key stays |
| `JsonReader.Reader.ReadOne` | linuino/arduino/streamingjson.py:63-86 | The dispatch on the first character: the index moves, and the value or error is that of the reading function on the unread text |
| `JsonReader.Reader.Read` | linuino/arduino/streamingjson.py:58-61 | The value and the count of characters taken, or the error, as the reading function says |
| `JsonWriter.Writer.WriteText` | linuino/arduino/streamingjson.py:286-298 | Appends the quoted and escaped text |
| `JsonWriter.Writer.WriteList` | linuino/arduino/streamingjson.py:277-285 | Appends the items with commas between them, none after the last |
| `JsonWriter.Writer.WriteDict` | linuino/arduino/streamingjson.py:266-276 | Appends the members with commas between them |
| `JsonWriter.Writer.WriteValue` | linuino/arduino/streamingjson.py:264-310 | Appends exactly the text of the value and keeps what is there |
| `JsonWriter.Writer.WriteObject` | linuino/arduino/streamingjson.py:258-262 | The joined results are the text of the value |
| `JsonStream.CutIndependence` | linuino/arduino/tcp.py:122-131 | For any text, well-formed or not: receiving it in two chunks gives what receiving it at once gives, if and only if the cut does not go through a top-level number |
| `JsonStream.ChunkIndependence` | linuino/arduino/tcp.py:122-171 | Any number of chunks, none of whose cuts goes through a top-level number, give what the whole text gives |
| `JsonStream.NumberCutInTwo` | linuino/arduino/tcp.py:161-171 | A number that is cut arrives as two numbers |
| `JsonStream.ProgressUnique` | linuino/arduino/tcp.py:161-171 | How many values are complete in a prefix of a stream, and what is left, is determined by the prefix |
| `JsonStream.DrainPrefix` | linuino/arduino/tcp.py:161-171 | From any prefix of a stream exactly the complete values are taken, and the unfinished beginning of the next is kept |
| `JsonStream.StreamDecoding` | linuino/arduino/tcp.py:122-171 | End to end: the written text of any self-delimiting values, cut anywhere; after each chunk the values taken are exactly those complete so far, in order |
| `JsonStream.DrainsSpelled` | linuino/arduino/tcp.py:161-171 | From a buffer that holds spellings, with any white space and comments between them, exactly their values are taken in order, up to a text no beginning of which spells a value |
| `JsonStream.StrippedBlanks` | linuino/arduino/tcp.py:166-166 | What is dropped in front of the next value are the six white-space characters, all of them, and nothing else |
| `JsonServer.Server.Accept` | linuino/arduino/tcp.py:142-147 | A new connection gets a place in both lists and two empty buffers |
| `JsonServer.Server.Close` | linuino/arduino/tcp.py:149-154 | A closed connection leaves lists and buffers; the others are untouched |
| `JsonServer.Server.Recv` | linuino/arduino/tcp.py:161-171 | Queues the values that the buffer holds and returns the rest |
| `JsonServer.Server.SocketReceive` | linuino/arduino/tcp.py:122-131 | One chunk of one connection: its own buffer and the queue change as the decoding says; an empty chunk or an error closes it |
| `JsonServer.Server.Read` | linuino/arduino/tcp.py:176-180 | The oldest queued value, or none |
| `JsonServer.Server.Send` | linuino/arduino/tcp.py:137-140 | The loop over the clients adds the data once to the buffer of each, and to nothing else |
| `JsonServer.Server.Sent` | linuino/arduino/tcp.py:108-115 | What the socket has taken by now is a beginning of all that was to be sent to the connection, longer by what it took; the buffer is exactly the rest |
| `JsonOutbound.StepBalanced` | linuino/arduino/tcp.py:106-154 | Whatever the servers do: for each connection what was taken and what is buffered make up what was to be sent |
| `JsonOutbound.WireCarriesValues` | linuino/arduino/tcp.py:106-184 | Over every run: what was taken and the buffer are together the text of the values written since the connection was accepted |
| `JsonOutbound.ValuesArrive` | linuino/arduino/tcp.py:137-184 | From one server to another: whatever chunks of it have arrived, the other end has decoded exactly the values complete in them, in the order of writing |
| `JsonServer.SendToEach` | linuino/arduino/tcp.py:137-140 | Each listed connection is sent the data exactly once |
| `JsonServer.RunDecoded` | linuino/arduino/tcp.py:94-171 | In every run with any connections, each, open or closed, contributes to the shared queue what its own chunks decode to |
| `JsonServer.ClientStreams` | linuino/arduino/tcp.py:94-171 | For every interleaving of connections: a client of self-delimiting values has contributed exactly the values complete in what was received from it, also after it is closed; while it is open its buffer is the unfinished rest |
| `Utf8Validator.ClassTable` | linuino/autobahn/websocket/utf8validator.py:35-44 | The first 256 entries of the table are the byte classes |
| `Utf8Validator.NextTable` | linuino/autobahn/websocket/utf8validator.py:45-50 | The rest of the table is the transition function |
| `Utf8Validator.AcceptIffWellFormed` | linuino/autobahn/websocket/utf8validator.py:35-50 | The automaton is in ACCEPT after exactly the sequences of the grammar of RFC 3629, section 4 |
| `Utf8Validator.RejectIffNotViable` | linuino/autobahn/websocket/utf8validator.py:35-50 | It is in REJECT after exactly the bytes that begin no such sequence |
| `Utf8Validator.RejectIsFinal` | linuino/autobahn/websocket/utf8validator.py:46-46 | No byte leads out of REJECT |
| `Utf8Validator.GoodIsLongest` | linuino/autobahn/websocket/utf8validator.py:139-146 | The total index is the length of the longest viable beginning |
| `Utf8Validator.GoodConcat` | linuino/autobahn/websocket/utf8validator.py:139-146 | That length over chunks: the good bytes of a refused chunk are added once |
| `Utf8Validator.DecodeInvertsEncode` | linuino/autobahn/websocket/utf8validator.py:89-106 | Fed the encodings of any scalar values, `decode` returns ACCEPT exactly at the end of each, each time with the value |
| `Utf8Validator.EncodeInvertsDecode` | linuino/autobahn/websocket/utf8validator.py:89-106 | What is decoded from a well-formed sequence encodes to that sequence |
| `Utf8Validator.AcceptedAreScalars` | linuino/autobahn/websocket/utf8validator.py:89-106 | Under any bytes whatever no surrogate and nothing above 0x10FFFF is accepted |
| `Utf8Validator.Utf8Validator.Decode` | linuino/autobahn/websocket/utf8validator.py:89-106 | The bit operations and table look-ups give the state and code point of the automaton |
| `Utf8Validator.Utf8Validator.MoreBits` | linuino/autobahn/websocket/utf8validator.py:102-102 | The mask, shift and or of a continuation byte append six bits |
| `Utf8Validator.Utf8Validator.FirstBits` | linuino/autobahn/websocket/utf8validator.py:104-104 | The mask of a first byte leaves its payload bits |
| `Utf8Validator.Utf8Validator.Reset` | linuino/autobahn/websocket/utf8validator.py:108-114 | Back to the empty stream |
| `Utf8Validator.Utf8Validator.Validate` | linuino/autobahn/websocket/utf8validator.py:116-146 | For any chunking: valid iff the stream is viable (or the chunk is empty), endsOnCodePoint iff it is well-formed, totalIndex is the longest viable length; the fast loop reaches the state of folding `decode` |
| `Utf8Validator.RejectedThenEmpty` | linuino/autobahn/websocket/utf8validator.py:136-146 | A stream, the single byte 0xFF, after which an empty chunk is answered with valid |
| `TelnetWire.StreamReceived` | linuino/serial/rfc2217.py:1026-1081 | Any interleaving of data, option commands and COM-port subnegotiations is received as sent, unescaped, and the receiver is idle again |
| `TelnetWire.ChunksAreStream` | linuino/serial/rfc2217.py:1026-1081 | Cutting the bytes into chunks changes nothing |
| `TelnetWire.Multiplexing` | linuino/serial/rfc2217.py:599-612 | Both together; and at every moment the receiver has done a beginning of what was sent |
| `TelnetWire.EncodedOctets` | linuino/serial/rfc2217.py:964-971 | Option commands and subnegotiations octet by octet: 255 c o, and 255 250 44 s value 255 240; the octet 255 of data is doubled |
| `TelnetWire.PairReceived` | linuino/serial/rfc2217.py:1026-1081 | What each octet after 255 makes of an idle receiver; a stray 255 240 hands over the text None |
| `TelnetWire.PairWithinBlock` | linuino/serial/rfc2217.py:1026-1081 | The same within a subnegotiation: 240 hands it over, 250 throws away what was collected, commands leave it as it is |
| `TelnetWire.PortManager.Filter` | linuino/serial/rfc2217.py:1026-1081 | The server loop: yielded bytes and dispatched commands are those of the byte automaton |
| `TelnetWire.PortManager.Escape` | linuino/serial/rfc2217.py:1009-1024 | The generator yields the data with each IAC doubled, which is what a receiver undoes |
| `TelnetWire.Serial.ReceiveChunk` | linuino/serial/rfc2217.py:715-757 | The client loop over one chunk does what the byte automaton does |
| `TelnetWire.Serial.TelnetReadLoop` | linuino/serial/rfc2217.py:701-766 | The client thread until the connection ends |
| `TelnetOptions.ActiveMeansActive` | linuino/serial/rfc2217.py:263-299 | Under any sequence of messages `active` says whether the state is ACTIVE |
| `TelnetOptions.LastWordDecides` | linuino/serial/rfc2217.py:263-299 | After any messages an option that does not refuse is active iff the last message that it understands is its ackYes, and inactive if that is its ackNo; it is as at the start if it understands none, or refuses |
| `TelnetOptions.RepliesByHistory` | linuino/serial/rfc2217.py:263-299 | The reply to a message, told from the earlier messages: an ackNo is answered with sendNo only by an active option, an ackYes with sendYes only by one that was last refused or never asked, and with sendNo by one that refuses |
| `TelnetOptions.UnknownIsRefused` | linuino/serial/rfc2217.py:784-791 | An option that the table does not hold: 251 (WILL) is refused with 254 (DONT), 253 (DO) with 252 (WONT), and 252 and 254 are left alone |
| `TelnetOptions.UnheardIsIgnored` | linuino/serial/rfc2217.py:777-791 | A table that holds only the other half of an option neither obeys nor refuses |
| `TelnetOptions.TelnetOption.ProcessIncoming` | linuino/serial/rfc2217.py:263-299 | State, active flag, reply and callback of one option, for each command and state |
| `TelnetOptions.Negotiator.Forward` | linuino/serial/rfc2217.py:777-783 | Every option with the given number processes the command, no other |
| `TelnetOptions.Negotiator.TelnetNegotiateOption` | linuino/serial/rfc2217.py:774-791 | The table after the command, and all that is sent: the options' replies, or one refusal of an unknown option |
| `TelnetConvergence.Quiesces` | linuino/serial/rfc2217.py:1091-1108 | Two such peers over FIFO channels, any order of moves: at most two messages flow for each option half, and every run ends |
| `TelnetConvergence.SkippedAreOvertaken` | linuino/serial/rfc2217.py:455-457 | Which halves the start-up loop skips, read off the order of the moves: those both sides want whose request from the server is delivered before the loop comes to them |
| `TelnetConvergence.Convergence` | linuino/serial/rfc2217.py:455-457 | A half ends active on both sides if one of them asked and the other one does not refuse, else inactive on both, iff it was not overtaken in this sense; an overtaken one leaves the server unanswered |
| `TelnetConvergence.AllConverge` | linuino/serial/rfc2217.py:451-457 | All halves end as wanted iff none was overtaken |
| `TelnetConvergence.CanFinish` | linuino/serial/rfc2217.py:774-791 | From every state on the way the exchange can be brought to its end |
| `TelnetConvergence.StartupRace` | linuino/serial/rfc2217.py:413-424 | With the tables of the two programs: if the reader is four messages ahead of the loop, the server is never active for RFC 2217, however it goes on |
| `TelnetConvergence.StartupRaceHappens` | linuino/serial/rfc2217.py:451-457 | There is such a run to the end |
| `TelnetConvergence.Converges` | linuino/serial/rfc2217.py:455-457 | When requests are sent before replies are processed: both active iff one side asked and the other one does not refuse, else both inactive |
| `TelnetConvergence.TablesMatch` | linuino/serial/rfc2217.py:926-941 | The client table (413-424) and the server table match half by half |
| `TelnetConvergence.ClientAsks` | linuino/serial/rfc2217.py:413-424 | What the client asks for at the start, by the octets: DO 1, WILL 3, DO 3, DO 44, WILL 44 |
| `TelnetConvergence.ServerAsks` | linuino/serial/rfc2217.py:926-941 | What the server asks for: WILL 1, WILL 3, DO 0, WILL 44 |
| `TelnetRefusal.LackingConverges` | linuino/serial/rfc2217.py:784-791 | Tables that lack options of the other side: what one side lacks ends inactive on the other, everything else as when nothing is lacking |
| `TelnetRefusal.PlainServer` | linuino/serial/rfc2217.py:455-466 | A client that meets a Telnet server without any option: all its halves end inactive, in any order of the moves |
| `TelnetRefusal.PlainClient` | linuino/serial/rfc2217.py:935-941 | A server that meets a client without any option gives up all of its own |
| `TelnetRefusal.NoComPort` | linuino/serial/rfc2217.py:413-424 | With the table of the client: it does not end with RFC 2217 active |
| `TelnetRefusal.WaitEndsIff` | linuino/serial/rfc2217.py:458-465 | As many active as not INACTIVE: the wait for some options ends iff none of them waits for its answer |
| `TelnetRefusal.OpenGoesOn` | linuino/serial/rfc2217.py:458-465 | After any messages the wait of `open` ends iff the request for RFC 2217 was answered, by DO or by DONT; it then goes on with RFC 2217 iff the last answer is DO |
| `TelnetRefusal.RefusalOpens` | linuino/serial/rfc2217.py:458-465 | The message DONT 44, with which it goes on without |
| `TelnetSettings.SettingsAgree` | linuino/serial/rfc2217.py:1110-1176 | Bytes to bytes, both ways, any chunks, among any data, option commands and other subnegotiations such as notices of the modem lines: the client finds all four settings active iff the server port holds exactly the values asked for |
| `TelnetSettings.OnlyRequests` | linuino/serial/rfc2217.py:1110-1176 | To the server port nothing in a stream matters but the four kinds of requests |
| `TelnetSettings.OnlyAnswers` | linuino/serial/rfc2217.py:793-817 | To the client settings nothing in a stream matters but the four kinds of answers |
| `TelnetSettings.RequestsServed` | linuino/serial/rfc2217.py:496-501 | The four requests are answered in order and applied as the port accepts them |
| `TelnetSettings.AcceptedIsApplied` | linuino/serial/rfc2217.py:1115-1167 | The port ends up with the values asked for iff each request in turn is accepted or asks for what is already set |
| `TelnetSettings.CodesAre` | linuino/serial/rfc2217.py:205-219 | The codes of parity and stop bits, both ways |
| `TelnetSettings.BaudrateRequest` | linuino/serial/rfc2217.py:1110-1127 | Suboption 1, four octets, the most significant first: applied iff not 0 and accepted; the answer is suboption 101 with the baud rate of the port |
| `TelnetSettings.DatasizeRequest` | linuino/serial/rfc2217.py:1128-1141 | Suboption 2: 5 to 8 data bits are applied iff accepted; answer 102 |
| `TelnetSettings.ParityRequest` | linuino/serial/rfc2217.py:1142-1158 | Suboption 3: 1 to 5 are the parities, 0 asks, more raises; answer 103 |
| `TelnetSettings.StopbitsRequest` | linuino/serial/rfc2217.py:1159-1175 | Suboption 4: 1, 2 and 3 are one, two and one and a half, 0 asks, more raises; answer 104 |
| `TelnetSettings.ZeroAsks` | linuino/serial/rfc2217.py:1110-1176 | Requests with the value 0 leave the port as it is and are answered with its settings |
| `TelnetSettings.ShortRequest` | linuino/serial/rfc2217.py:1110-1176 | A request without its value raises, and another suboption is left alone |
| `TelnetSettings.TelnetSubnegotiation.Set` | linuino/serial/rfc2217.py:322-332 | The request goes out, and no answer that came before it counts any more |
| `TelnetSettings.TelnetSubnegotiation.CheckAnswer` | linuino/serial/rfc2217.py:359-370 | The last answer decides, by whether it begins with the value; an answer before any request is a TypeError |
| `TelnetSettings.TelnetSubnegotiation.IsReady` | linuino/serial/rfc2217.py:334-341 | Ready iff the last answer since the last request begins with the value asked for; an error iff it does not; neither iff there was none |
| `TelnetSettings.PortManager.TelnetProcessSubnegotiation` | linuino/serial/rfc2217.py:1110-1176 | The four handlers: the new port, the answer, and the exceptions that leave them |
| `TelnetModem.InformedIffPaired` | linuino/serial/rfc2217.py:976-1005 | A client that sets its mask and leaves it knows the masked lines as last checked, in every run, iff for each line the mask also has its change bit |
| `TelnetModem.KeptInformed` | linuino/serial/rfc2217.py:976-1005 | Over every run, with any changes of the mask, the client is informed at every moment, iff each poll and each new mask meets a condition on the state before it |
| `TelnetModem.StepInforms` | linuino/serial/rfc2217.py:1273-1274 | That condition, step by step: a new mask keeps the client informed iff it lets the same of the lines that are on through as the old one |
| `TelnetModem.UnpairedFails` | linuino/serial/rfc2217.py:994-1005 | The run in which a masked line falls unnoticed |
| `TelnetModem.ReportedIffNotCovered` | linuino/serial/rfc2217.py:1177-1200 | For any port handed over: the flow control last set is reported, iff it is not hardware on top of software flow control, which stays on |
| `TelnetModem.SoftwareStays` | linuino/serial/rfc2217.py:1186-1200 | Software flow control is on iff it was set and not cleared since, or was on from the start and never cleared |
| `TelnetModem.ModemWatch.CheckModemLines` | linuino/serial/rfc2217.py:976-1005 | The lines are remembered; the client is told iff forced or if something that passes the mask is on or changed; it stays informed exactly in the fine cases |
| `TelnetModem.ModemWatch.ClientOk` | linuino/serial/rfc2217.py:944-960 | The client is informed from then on, whatever it knew before |
| `TelnetModem.MaskedBytes` | linuino/serial/rfc2217.py:976-999 | The mask on the bytes, with the weights of RFC 2217, is the mask on the eight flags |
| `Deflate.ParseOffer` | linuino/autobahn/websocket/compress_deflate.py:77-158 | The loop over the parameters: the offer that they make, or an error |
| `Deflate.ParseResponse` | linuino/autobahn/websocket/compress_deflate.py:355-419 | The loop over the parameters of the response |
| `Deflate.MakeOffer` | linuino/autobahn/websocket/compress_deflate.py:160-195 | Which arguments the constructor of an offer accepts, exactly |
| `Deflate.MakeOfferAccept` | linuino/autobahn/websocket/compress_deflate.py:241-307 | Which arguments the constructor of the server accept allows for an offer, exactly |
| `Deflate.MakeResponseAccept` | linuino/autobahn/websocket/compress_deflate.py:458-502 | Which arguments the constructor of the client accept allows for a response, exactly |
| `DeflateHandshake.OfferMeaning` | linuino/autobahn/websocket/compress_deflate.py:77-158 | The offer is read iff each parameter is one of the four with an allowed value, and each field says whether, or with which number, its parameter is there |
| `DeflateHandshake.ResponseMeaning` | linuino/autobahn/websocket/compress_deflate.py:355-419 | The same for the response |
| `DeflateHandshake.HandshakeHonours` | linuino/autobahn/websocket/compress_deflate.py:309-324 | After any handshake, by the names in the header (section 7.1 of RFC 7692): where it says no context takeover both ends of that direction forget, where it gives a window the compressor keeps within it; the response grants what the offer asked for and asks for nothing it does not allow |
| `DeflateHandshake.DefaultsAgree` | linuino/autobahn/websocket/compress_deflate.py:264-307 | Every allowed offer can be accepted with the defaults, on both sides |
| `Deflate.OfferTransported` | linuino/autobahn/websocket/compress_deflate.py:197-212 | The server reads the client's offer, iff it accepts client_no_context_takeover; otherwise that one flag is wrong |
| `Deflate.ResponseTransported` | linuino/autobahn/websocket/compress_deflate.py:309-324 | The client reads from the response what the server wrote |
| `Deflate.HandshakeCovers` | linuino/autobahn/websocket/compress_deflate.py:264-307 | For every offer, accept and response accept that the constructors allow, in both directions the compressor window is at most the decompressor's and a reset there is a reset here |
| `Deflate.ExpandSuffix` | linuino/autobahn/websocket/compress_deflate.py:605-619 | Tokens valid over a history give the same bytes over a longer one, and the histories stay nested |
| `Deflate.CopyMeaning` | linuino/autobahn/websocket/compress_deflate.py:613-614 | A copy repeats the bytes so many places back, those just written included |
| `Deflate.HistoryIsEnd` | linuino/autobahn/websocket/compress_deflate.py:613-614 | The history is the end of all that came out |
| `Deflate.PassContained` | linuino/autobahn/websocket/compress_deflate.py:587-619 | One message keeps the compressor history a suffix of the decompressor history |
| `Deflate.ContainedDecodes` | linuino/autobahn/websocket/compress_deflate.py:587-619 | So every message of any sequence decodes to itself |
| `Deflate.DecodableIffCovered` | linuino/autobahn/websocket/compress_deflate.py:587-619 | All messages of all runs decode iff the window and reset conditions hold |
| `Deflate.HandshakeDecodes` | linuino/autobahn/websocket/compress_deflate.py:533-573 | After any handshake every message of any sequence decodes to itself, in both directions |
| `Deflate.SendMessage` | linuino/autobahn/websocket/compress_deflate.py:587-619 | The two objects: the message arrives, and the containment is kept |
| `DeflateHandshake.ObjectsAreDirections` | linuino/autobahn/websocket/compress_deflate.py:587-619 | The two objects that are made of any handshake compress and decompress just as its two directions say, windows and resets |
| `DeflateHandshake.Connect` | linuino/autobahn/websocket/compress_deflate.py:533-573 | The objects of the two sides of a handshake start in step |
| `DeflateHandshake.Deliver` | linuino/autobahn/websocket/compress_deflate.py:587-619 | After any handshake: a message in either direction arrives as sent, and the objects are in step for the next |
| `Deflate.PerMessageDeflate.StartCompressMessage` | linuino/autobahn/websocket/compress_deflate.py:587-596 | A new compressor first, and for each message on a server with server_no_context_takeover and on a client with client_no_context_takeover; otherwise the old one |
| `Deflate.PerMessageDeflate.StartDecompressMessage` | linuino/autobahn/websocket/compress_deflate.py:605-611 | A new decompressor first, and for each message on a server with client_no_context_takeover and on a client with server_no_context_takeover |
| `Deflate.PerMessageDeflate.DecompressMessageData` | linuino/autobahn/websocket/compress_deflate.py:613-614 | For every compressor whose history ends this one's, with no larger window: its message comes out and its new history ends the new one here |
| `WampInvariant.StepSound` | linuino/autobahn/wamp/protocol.py:440-446 | Every call and message keeps the invariant (disjoint tables, entries under their id, pending and unshared futures, subscriptions and registrations active iff listed) and loses no request, iff the request id is free and it is not a second REGISTERED; no assertion fails, no future is resolved twice |
| `WampInvariant.AskHolds` | linuino/autobahn/wamp/protocol.py:1008-1034 | Storing a request under the next id keeps the tables, iff the id is not outstanding (for calls that are taken back: not under the same kind) |
| `WampInvariant.SettleHolds` | linuino/autobahn/wamp/protocol.py:645-658 | Removing a request as its future settles leaves the others intact |
| `WampInvariant.RegisteredAgainLoses` | linuino/autobahn/wamp/protocol.py:858-870 | REGISTERED for a known registration raises; whatever follows, the caller's future is pending and no request waits for it |
| `WampInvariant.RegisteredAgainHappens` | linuino/autobahn/wamp/protocol.py:858-870 | A run of a new session to such a message |
| `WampInvariant.AnswersMatch` | linuino/autobahn/wamp/protocol.py:645-746 | A reply or error whose id is not outstanding under its kind raises and changes nothing; otherwise exactly that request goes and exactly its future gets the answer |
| `WampInvariant.ErrorSettles` | linuino/autobahn/wamp/protocol.py:893-925 | ERROR looks only into the table of its request type |
| `WampAnswers.ErrorByCode` | linuino/autobahn/wamp/protocol.py:893-925 | By the codes: an ERROR of type 16, 32, 34, 48, 64 or 66 for a request outstanding in the publish, subscribe, unsubscribe, call, register or unregister table removes exactly it and rejects exactly its future; any other ERROR is refused and changes nothing |
| `WampAnswers.PublishedAndResult` | linuino/autobahn/wamp/protocol.py:645-746 | The whole new state after PUBLISHED and after a final RESULT |
| `WampAnswers.SubscribedExactly` | linuino/autobahn/wamp/protocol.py:660-679 | The whole new state after SUBSCRIBED |
| `WampAnswers.RegisteredExactly` | linuino/autobahn/wamp/protocol.py:858-874 | The whole new state after REGISTERED under a new id |
| `WampAnswers.EndsAnswered` | linuino/autobahn/wamp/protocol.py:681-697 | UNSUBSCRIBED and UNREGISTERED: the request in its own table goes, and its future resolves |
| `WampAnswers.PublishExactly` | linuino/autobahn/wamp/protocol.py:994-1036 | The whole new state after a publish, with and without acknowledgement |
| `WampAnswers.CallExactly` | linuino/autobahn/wamp/protocol.py:1051-1190 | The same after subscribe, call and register, each with its own table |
| `WampAnswers.EndExactly` | linuino/autobahn/wamp/protocol.py:1085-1231 | The same after the last unsubscribe under an id, and after unregister |
| `WampAnswers.TakenBack` | linuino/autobahn/wamp/protocol.py:1021-1034 | When the transport raises, publish and call leave no request |
| `WampAnswers.LeftBehind` | linuino/autobahn/wamp/protocol.py:1051-1063 | Subscribe and register leave theirs, with a future that nobody holds |
| `WampAnswers.TransportLostIff` | linuino/autobahn/wamp/protocol.py:994-1000 | A call on a live object raises TransportLost, and changes nothing, iff there is no transport |
| `WampAnswers.TransportOverRuns` | linuino/autobahn/wamp/protocol.py:457-936 | The transport is there from onOpen to onClose, whatever comes in between |
| `WampAnswers.LostUntilOpen` | linuino/autobahn/wamp/protocol.py:932-936 | After onClose, over any run, calls raise TransportLost until the next onOpen |
| `WampAnswers.FirstMessage` | linuino/autobahn/wamp/protocol.py:545-598 | Before the session only WELCOME, ABORT and CHALLENGE are taken; afterwards just these are refused |
| `WampAnswers.JoinLeave` | linuino/autobahn/wamp/protocol.py:474-490 | Join sends HELLO and allows another GOODBYE, leave sends GOODBYE |
| `WampAnswers.SessionEnds` | linuino/autobahn/wamp/protocol.py:600-615 | GOODBYE from the router ends the session and is answered iff none was sent; so does the loss of the transport |
| `WampAnswers.SessionCycle` | linuino/autobahn/wamp/protocol.py:474-615 | Join, WELCOME, leave and GOODBYE lead back to where the next session can be joined; what each does |
| `WampAnswers.InvocationExactly` | linuino/autobahn/wamp/protocol.py:748-785 | The whole new state after an INVOCATION |
| `WampAnswers.EndedExactly` | linuino/autobahn/wamp/protocol.py:787-835 | The whole new state after an endpoint ends: YIELD for a result, ERROR for an exception, for just this request |
| `WampAnswers.InvocationAnswered` | linuino/autobahn/wamp/protocol.py:748-835 | An invocation from its message to its answer |
| `WampAnswers.ProgressReaches` | linuino/autobahn/wamp/protocol.py:703-718 | Any number of progressive results of a call with a handler: each reaches it, and the request waits on |
| `WampAnswers.ProgressUnheard` | linuino/autobahn/wamp/protocol.py:703-718 | Without a handler a progressive result is swallowed, and without options it fails |
| `WampInvariant.SubscribedGives` | linuino/autobahn/wamp/protocol.py:660-677 | The new subscription is active under the router's id with the caller's handler |
| `WampInvariant.RegisteredGives` | linuino/autobahn/wamp/protocol.py:858-874 | The new registration is active under the router's id with the caller's endpoint |
| `WampInvariant.UnregisteredEnds` | linuino/autobahn/wamp/protocol.py:876-891 | UNREGISTERED ends the registration under its id and no other |
| `WampInvariant.InvocationCalls` | linuino/autobahn/wamp/protocol.py:748-785 | INVOCATION calls the endpoint of the one active registration under its id, or is refused; exactly when |
| `WampInvariant.UnsubscribeEnds` | linuino/autobahn/wamp/protocol.py:1098-1117 | `unsubscribe` ends this subscription and no other, and takes a request id iff no other is left |
| `WampInvariant.RequestIsSent` | linuino/autobahn/wamp/protocol.py:1005-1036 | The stored request that waits for a future is the one that was sent: same kind, id and content |
| `WampInvariant.UnsubscribedEndsAll` | linuino/autobahn/wamp/protocol.py:681-695 | UNSUBSCRIBED ends every subscription under its id, later ones too, and no other |
| `WampInvariant.UnsubscribeKeeps` | linuino/autobahn/wamp/protocol.py:1085-1099 | The assertions of `_unsubscribe` hold for an active subscription, and the lists stay consistent |
| `WampInvariant.UnregisteredKeeps` | linuino/autobahn/wamp/protocol.py:876-889 | The registration that is stored under the id becomes inactive |
| `WampInvariant.EventFires` | linuino/autobahn/wamp/protocol.py:617-643 | EVENT calls the handler of each active subscription under its id once, and no other |
| `WampInvariant.RunKeepsInvariant` | linuino/autobahn/wamp/protocol.py:543-925 | The invariant over every run without an id collision |
| `WampInvariant.RunKeepsRequests` | linuino/autobahn/wamp/protocol.py:543-925 | Every outstanding request stays until its future is settled |
| `WampInvariant.RunSettled` | linuino/autobahn/wamp/protocol.py:645-746 | A settled future never changes |
| `WampInvariant.EarlyIdsAreFresh` | linuino/autobahn/util.py:119-130 | No id collides in the first 2^53 + 1 steps |
| `WampInvariant.SessionIsSafe` | linuino/autobahn/wamp/protocol.py:426-455 | Invariant and no internal fault for every run of a new session of up to 2^53 + 1 steps, or without collisions |
| `WampInvariant.ReturnedIsStored` | linuino/autobahn/wamp/protocol.py:1005-1036 | The future that a call returns is new, and settled or stored |
| `WampInvariant.NoFutureIsLost` | linuino/autobahn/wamp/protocol.py:994-1235 | Every future that was ever returned is later settled, or awaited by exactly one request |
| `WampInvocations.InvocationsBalance` | linuino/autobahn/wamp/protocol.py:748-856 | Over every run and id: endpoint calls = answers + interruptions + open + answers that could not be sent |
| `WampInvocations.AnsweredIff` | linuino/autobahn/wamp/protocol.py:787-837 | An endpoint that ends is answered iff its invocation is still open, its exception has a first argument that can be formatted, and the answer can be sent |
| `WampInvocations.InterruptedResultIsLost` | linuino/autobahn/wamp/protocol.py:841-856 | After INTERRUPT the endpoint runs on, but over every run without a new INVOCATION of the id nothing is sent for it |
| `WampInvocations.ClosedIsNotAnswered` | linuino/autobahn/wamp/protocol.py:787-788 | Over every run without an INVOCATION of an id that is not open, no answer is sent for it and it does not open |
| `WampInvocations.OpenUntilClosed` | linuino/autobahn/wamp/protocol.py:788-856 | An invocation stays open over a run iff no INTERRUPT comes for it and no endpoint under its id ends, except by an exception that cannot be described |
| `WampInvocations.BareExceptionStaysOpen` | linuino/autobahn/wamp/protocol.py:803-805 | After such an exception of its only endpoint there is no answer, and the invocation stays open exactly as long as no INTERRUPT comes |
| `WampInvocations.OpenIdIsRefused` | linuino/autobahn/wamp/protocol.py:748-752 | While it is open its id is refused; INTERRUPT makes it usable again |
| `WampLifecycle.OneGoodbyeForEachSession` | linuino/autobahn/wamp/protocol.py:474-490 | Over every run, session by session: each GOODBYE is sent while a session is open and is the first for it; `onLeave` is called between any two sessions, and for every session by the time there is none |
| `WampLifecycle.NoSecondGoodbye` | linuino/autobahn/wamp/protocol.py:975-992 | Between any two GOODBYEs of a run one session is over and another begins |
| `WampLifecycle.TrackMeans` | linuino/autobahn/wamp/protocol.py:543-615 | The invariant of the log means just that, about the places of its entries |
| `WampLifecycle.StepFair` | linuino/autobahn/wamp/protocol.py:543-615 | Every step keeps the log in that order, with a session open in it exactly while there is a session id |
| `WampLifecycle.GoodbyeFair` | linuino/autobahn/wamp/protocol.py:600-615 | GOODBYE is answered only while a session is open for which none was sent |
| `WampLifecycle.LeaveFair` | linuino/autobahn/wamp/protocol.py:975-992 | `leave` sends GOODBYE only while a session is open for which none was sent |
| `WampLifecycle.CloseFair` | linuino/autobahn/wamp/protocol.py:932-952 | The loss of the transport keeps the log in that order |
| `WampApplication.IdGenerator.Next` | linuino/autobahn/util.py:119-130 | The n-th id is n modulo 2^53 + 1 |
| `WampApplication.ApplicationSession.constructor` | linuino/autobahn/wamp/protocol.py:426-455 | All tables empty, no transport, no session |
| `WampApplication.ApplicationSession.NewRequest` | linuino/autobahn/wamp/protocol.py:1008-1021 | A new id, future object and request object, stored in its table |
| `WampApplication.ApplicationSession.Publish` | linuino/autobahn/wamp/protocol.py:994-1036 | An acknowledged publish stores its request, and takes it back when the transport raises |
| `WampApplication.ApplicationSession.Subscribe` | linuino/autobahn/wamp/protocol.py:1051-1063 | The request is stored and stays when the transport raises |
| `WampApplication.ApplicationSession.Unsubscribe` | linuino/autobahn/wamp/protocol.py:1085-1117 | The handler is removed in place; only the last one sends UNSUBSCRIBE |
| `WampApplication.ApplicationSession.Removed` | linuino/autobahn/wamp/protocol.py:1099-1099 | The first occurrence of this object, and no other, is removed |
| `WampApplication.ApplicationSession.Call` | linuino/autobahn/wamp/protocol.py:1119-1163 | The request is stored, and taken back when the transport raises |
| `WampApplication.ApplicationSession.Register` | linuino/autobahn/wamp/protocol.py:1178-1190 | The request is stored and stays when the transport raises |
| `WampApplication.ApplicationSession.Unregister` | linuino/autobahn/wamp/protocol.py:1212-1231 | The registration stays active until UNREGISTERED |
| `WampApplication.ApplicationSession.Settle` | linuino/autobahn/wamp/protocol.py:655-656 | The future object that the request holds is resolved in place, once |
| `WampApplication.ApplicationSession.Pop` | linuino/autobahn/wamp/protocol.py:647-650 | The request object leaves its table |
| `WampApplication.ApplicationSession.OnPublished` | linuino/autobahn/wamp/protocol.py:645-658 | The future object of the popped request changes, and no other |
| `WampApplication.ApplicationSession.OnSubscribed` | linuino/autobahn/wamp/protocol.py:660-679 | Request, future, list and new object |
| `WampApplication.ApplicationSession.OnUnsubscribed` | linuino/autobahn/wamp/protocol.py:681-697 | Each object of the list is made inactive in place |
| `WampApplication.ApplicationSession.DeactivateAll` | linuino/autobahn/wamp/protocol.py:689-691 | The loop over the list |
| `WampApplication.ApplicationSession.OnResult` | linuino/autobahn/wamp/protocol.py:699-746 | A progressive result leaves the request, a final one settles its future object |
| `WampApplication.ApplicationSession.OnInvocation` | linuino/autobahn/wamp/protocol.py:748-839 | A new invocation calls the endpoint of the stored object |
| `WampApplication.ApplicationSession.OnRegistered` | linuino/autobahn/wamp/protocol.py:858-874 | Popped first, then refused if the id is known |
| `WampApplication.ApplicationSession.OnUnregistered` | linuino/autobahn/wamp/protocol.py:876-891 | The stored object is made inactive in place |
| `WampApplication.ApplicationSession.OnError` | linuino/autobahn/wamp/protocol.py:893-925 | The future object of the request of that type and id is rejected |
| `WampApplication.ApplicationSession.OnEvent` | linuino/autobahn/wamp/protocol.py:617-643 | The handlers, in order |
| `WampApplication.ApplicationSession.OnMessage` | linuino/autobahn/wamp/protocol.py:543-930 | The dispatch, before and after the session is established |
| `WampApplication.ApplicationSession.OnEnded` | linuino/autobahn/wamp/protocol.py:787-835 | The callbacks `success` and `error` |
| `LongPoll.ExactlyOnce` | linuino/autobahn/twisted/longpoll.py:122-184 | Over every run, in either mode: what polls carried followed by the queue is what was sent, in order; each poll is finished at most once; none waits while messages do |
| `LongPoll.StepKeepsInv` | linuino/autobahn/twisted/longpoll.py:122-184 | The invariant behind it |
| `LongPoll.TriggerAccounts` | linuino/autobahn/twisted/longpoll.py:141-158 | Sending moves messages from queue to poll without loss, doubling or reordering |
| `LongPoll.WaitingPollGoesOn` | linuino/autobahn/twisted/longpoll.py:160-184 | The waiting poll is forgotten iff another poll comes or any open one, even an earlier one, is lost |
| `LongPoll.PollCarries` | linuino/autobahn/twisted/longpoll.py:141-184 | A new poll takes all waiting messages in batched mode, the oldest one otherwise, and waits if there is none; the whole new state |
| `LongPoll.SendCarries` | linuino/autobahn/twisted/longpoll.py:122-158 | A message goes alone to the waiting poll and finishes it, or is queued |
| `LongPoll.CloseFinishes` | linuino/autobahn/twisted/longpoll.py:132-139 | Close, and a tick of an inactive session, finish the waiting poll with nothing |
| `LongPoll.ClosedForGood` | linuino/autobahn/twisted/longpoll.py:261-302 | A closed session never opens again: sending and closing raise TransportLost, requests for it are not found |
| `LongPoll.ForgottenForGood` | linuino/autobahn/twisted/longpoll.py:174-177 | A forgotten poll is never finished |
| `LongPoll.InactivityBound` | linuino/autobahn/twisted/longpoll.py:261-283 | With period T, the timer ends a session between T and 2T after its last activity, and none is idle longer |
| `LongPoll.EndedIffLapses` | linuino/autobahn/twisted/longpoll.py:267-281 | The timer ends a session iff a whole period passes without activity |
| `LongPoll.BoundsAreReached` | linuino/autobahn/twisted/longpoll.py:267-283 | Both bounds are reached |
| `LongPoll.ReceiveResource.Queue` | linuino/autobahn/twisted/longpoll.py:122-130 | Append, then send if a poll waits |
| `LongPoll.ReceiveResource.DoTrigger` | linuino/autobahn/twisted/longpoll.py:141-158 | All pending messages or one go to the waiting poll, which is finished |
| `LongPoll.ReceiveResource.WritePending` | linuino/autobahn/twisted/longpoll.py:148-150 | The draining loop |
| `LongPoll.ReceiveResource.DoKill` | linuino/autobahn/twisted/longpoll.py:132-139 | The waiting poll is finished empty |
| `LongPoll.ReceiveResource.RenderPost` | linuino/autobahn/twisted/longpoll.py:160-184 | The new poll is remembered instead of any other |
| `LongPoll.ReceiveResource.Cancel` | linuino/autobahn/twisted/longpoll.py:174-177 | Whatever poll is lost, none is remembered |
| `LongPoll.SessionResource.DoSend` | linuino/autobahn/twisted/longpoll.py:350-365 | Queued while the session is open |
| `LongPoll.SessionResource.DoPost` | linuino/autobahn/twisted/longpoll.py:69-92 | A payload that was accepted keeps the session open through the next tick, whatever else comes short of a close |
| `LongPoll.PostKeepsOpen` | linuino/autobahn/twisted/longpoll.py:81-92 | The same of the state, and that a refused payload changes nothing |
| `LongPoll.OlderPollLost` | linuino/autobahn/twisted/longpoll.py:171-177 | Two polls, the older one lost: the younger one stays open and waits for ever |
| `LongPoll.SessionResource.DoReceive` | linuino/autobahn/twisted/longpoll.py:160-184 | Activity with each poll |
| `LongPoll.SessionResource.DoClose` | linuino/autobahn/twisted/longpoll.py:293-302 | Closed once |
| `LongPoll.SessionResource.KillIfDead` | linuino/autobahn/twisted/longpoll.py:267-281 | Ended if inactive, otherwise one more period |
| `XorMasker.AnyChunks` | linuino/autobahn/websocket/xormasker.py:77-88 | However the stream is cut, the output is the masked stream of section 5.3 of RFC 6455 |
| `XorMasker.OctetOfStream` | linuino/autobahn/websocket/xormasker.py:77-88 | Bit by bit: octet i of the stream is turned over where octet i mod 4 of the mask has ones |
| `XorMasker.Unmasks` | linuino/autobahn/websocket/xormasker.py:64-129 | The receiver unmasks what the sender masked, each with its own chunks |
| `XorMasker.MaskedTwice` | linuino/autobahn/websocket/xormasker.py:77-88 | Masking twice is the identity |
| `XorMasker.XorMaskerSimple.Process` | linuino/autobahn/websocket/xormasker.py:77-88 | Output and pointer of the masked stream |
| `XorMasker.XorMaskerShifted1.constructor` | linuino/autobahn/websocket/xormasker.py:90-105 | The four shifted masks |
| `XorMasker.XorMaskerShifted1.Process` | linuino/autobahn/websocket/xormasker.py:113-123 | The same output and pointer, by the shifted masks |
| `BatchFraming.UnserializeMsgPack` | linuino/autobahn/wamp/serializer.py:308-337 | The loop ends with the messages of the frames or with error 1, 2 or an inner error; error 3 is never raised |
| `BatchFraming.FrameLayout` | linuino/autobahn/wamp/serializer.py:280-288 | A frame: the length in four octets, the most significant first, and the message |
| `BatchFraming.CutFrames` | linuino/autobahn/wamp/serializer.py:308-337 | After any good frames: error 1 for one to three octets more, error 2 for a message shorter than its length says |
| `BatchFraming.UnframeIff` | linuino/autobahn/wamp/serializer.py:308-337 | A payload unserializes to a list iff it is exactly the frames of messages that unpack to it |
| `BatchFraming.MsgPackRoundTrip` | linuino/autobahn/wamp/serializer.py:280-288 | Any batch of messages below 2^32 bytes comes back |
| `BatchFraming.JsonRoundTrip` | linuino/autobahn/wamp/serializer.py:186-208 | A batch comes back iff it is not empty and no message contains byte 0x18 |
| `BatchFraming.OneTerminated` | linuino/autobahn/wamp/serializer.py:186-195 | A serialized message and one octet 0x18 |
| `BatchFraming.NoTerminator` | linuino/autobahn/wamp/serializer.py:201-207 | A payload without that octet is refused |
| `BatchFraming.JsonIgnoresTail` | linuino/autobahn/wamp/serializer.py:202-204 | An unfinished last message is dropped without an error |
| `BatchFraming.CutBatchLosesLast` | linuino/autobahn/wamp/serializer.py:202-204 | Of a batch of two that is cut short in the second, the first comes out alone |
| `Pbkdf2.Derive` | linuino/autobahn/wamp/auth.py:128-137 | The key is the first keylen bytes of T_1 to T_l of RFC 8018, section 5.2, with enough blocks; it fails iff the block number outgrows 32 bits; a count below 1 works as 1 |
| `Pbkdf2.Block` | linuino/autobahn/wamp/auth.py:132-135 | The inner loop is U_1 xor ... xor U_c |
| `Pbkdf2.BlockIsParity` | linuino/autobahn/wamp/auth.py:131-135 | Each bit of T_i is the parity of that bit over U_1 to U_c |
| `Pbkdf2.RoundsOf` | linuino/autobahn/wamp/auth.py:131-134 | U_1 hashes the salt and the block number, most significant octet first, U_2 hashes U_1 |
| `Bits.Pack4` | linuino/autobahn/wamp/auth.py:100-100 | Four octets, the most significant first |
| `Bits.Unpack4` | linuino/autobahn/wamp/serializer.py:316-316 | The number that four octets make, the most significant first |
| `Pbkdf2.OctetOfKey` | linuino/autobahn/wamp/auth.py:131-137 | Octet k is octet k mod h of block k div h + 1 |
| `Pbkdf2.LongerKey` | linuino/autobahn/wamp/auth.py:131-137 | A longer key begins with the shorter one |

## Left out

- Sockets, `select`, threads, locks, logging, wall-clock waits, and the Win32, .NET, Java and termios back ends: input and output become parameters.
- `TCPJSONClient.recv`: it overwrites its buffer with each chunk, so that there is no stream to speak of.
- The loop that drops starving clients (`tcp.py`, 117-120): it removes from the list that it iterates over.
- Floats, tuples, unicode strings and non-string keys on the writer's side; `"%f"` is lossy. Python's recursion limit on the reader's side.
- JsonText.Read: a float keeps its literal instead of its value.
- JsonServer.Server.Read: Python's `read` returns None both for an empty queue and for a received null; the model tells the two apart.
- Dead code: the branch of `_read` for a comment, which `_eatWhitespace` has already taken.
- RFC 2217: SET_CONTROL other than flow control, purge, line state, and the client's polling with its time-outs.
- TelnetRefusal.LackingConverges: is about options that a side lacks altogether; a half that is lacking while the other half of the option is there is never answered (`UnheardIsIgnored`).
- TelnetRefusal.OpenGoesOn: the time-out of the wait is not modelled, only the condition that ends it earlier.
- TelnetConvergence.Convergence: each turn of the start-up loop, the test of the option's state and the sending, is one move; the reader thread does not run in between.
- TelnetModem.InformedIffPaired: speaks of the state byte that is sent, not of its way through the Telnet stream, which `TelnetWire.Multiplexing` covers.
- TelnetModem.ModemWatch.CheckModemLines: the eight bits of a modem byte are eight flags; `MaskedBytes` is what the byte operation does to them.
- TelnetSettings.SettingsAgree: is about requests that the client itself makes; a malformed block raises an exception that ends the filter, which `TelnetProcessSubnegotiation` models.
- Deflate bit packing, compression levels, memory level beyond its range check, the trailing bytes of a sync flush, and zlib's own treatment of windows of 8 bits.
- `message.py`: messages are a datatype; the answer to CHALLENGE and the contents of results are not modelled.
- Subscribing or registering all methods of an object: successive calls of the modelled operations.
- WampApplication.ApplicationSession.OnMessage: the fields of the six request tables are one value with six tables, and the dispatch is spread over methods.
- `XorMaskerNull` and `createXorMasker`, which only pick one of the maskers.
- Pbkdf2.Derive: the inner loop is a method of its own; the conversions between bytes and lists of integers are left out.
- `Serializer.unserialize`: the parsing of message lists into classes.
- WebSocket framing, bzip2 and snappy compression, the TOTP and challenge functions of `auth.py`, and the glue of the bridge (`commands.py`, `logger.py`, `data.py`).
