# A model of the lxg D-Bus router

lxg gives the programs of a container one D-Bus socket. Behind it a router joins two buses: the
container's own bus and, if there is one, the bus of the host. This project models that router
(`container/dbus`) in Dafny and proves what it keeps.

- **Wire format** (`Bytes`, `Wire`, `Bodies`, `HeaderFields`, `BuiltFrames`, `Texts`, `NameLists`,
  `Merging`, `ErrorReply`): header parsing in both byte orders, the field builders, the body
  decoders, string arrays, body replacement, error replies and the merging of two name lists. Each
  loop of the code is a method proved against a function on byte sequences, and the lemmas are about
  these functions: round trips, and when a header is independent of the bytes behind it. Integers
  of 32 bits wrap as in the code. `WireLayout` and `BodyLayout` say in plain bytes what stands where.
- **Streams** (`Reader`, `Handshake`): the reader that rebuilds frames and descriptors from
  arbitrary reads, and the line-by-line handshake that hands it the bytes it has read too much.
  `CommandLines` says in plain bytes which lines get which answer.
- **Routing** (`Rules`, `Routing`): the static rules, and where each message goes, by its own text.
- **The session as a step system** (`Session`): the dispatcher and the two bus readers share
  `hostPending`, `merges` and the learned names. One step is one critical section or one write, and
  a run is any interleaving of steps. Writes may fail at any time. The client never reuses a serial,
  and the container bus answers only calls it has received, each at most once. Both buses may send
  any frame that the reader accepts, with one condition where a body may be replaced: a return to a
  name list call, or to a serial that may still become one, has its header texts inside its header.
  When and what the host bus answers is free. A theorem that needs more (a host that, too, answers
  only what it received; no failed write) says so in its `requires` or states what holds in each case.
- **Theorems over all runs** (`Correlation`, `Solicited`, `Quiescence`, `Origins`, `Delivery`,
  `Forwarding`, `Lessons`, `Traffic`, `ListCalls`, `MergedReplies`, `Subscriptions`, `FdLedger`,
  `Descriptors`, with the frame lemmas in `Effects`).
- **The session object** (`ClientSessions`): the class with the code's fields and methods. A ghost
  run of the step system goes along, and each method is proved to make steps of its own thread
  only and to leave the maps, the bytes on the three sockets and the closed descriptors as that
  run does. So the theorems about runs are theorems about what the methods do.
- **End to end** (`EndToEnd`, `Readability`, `Serving`): from the first byte of a client connection,
  through the three loops, to the frames that the client and the two buses read.

Four things the proofs brought to light. Each has its exact condition and an input that shows it:

- The frame length is computed in `uint32` and may wrap, so the reader can return a message whose
  header is longer than its frame (`Reader.WrappedFrameAccepted`; the exact condition is in
  `Reader.PartsFillFrame`).
- Header texts are checked against the end of the frame and not of the header, so replacing the
  body of a crafted message can change its reply serial (`Bodies.EscapingTextChangesReply`; the exact
  condition is in `Bodies.ParsingIgnoresBodies`).
- Messages to the bus itself are recorded by member without looking at their type, so a message
  that is no call leaves an entry behind for good (`Witnesses.EntryCanBeLeft`; the exact condition is
  in `Quiescence.LeftoverEntries`).
- A merged reply takes over a header together with the number of descriptors that it declares, but
  carries none, so a client waits for descriptors that never come
  (`Witnesses.StreamCanBeUnreadable`; the exact condition is in `EndToEnd.ClientStreamReads` and
  `Readability.MergedIsReadable`).

The error replies of the router carry the destination in their bytes and not in their struct;
`ErrorReply.ErrorAsRead` is the message as its bytes read.

## Model

| member | source | states |
|---|---|---|
| `Correlation.AtMostOneReply` | container/dbus/router.go:327-538 | For every interleaving of the dispatcher and the two bus readers, every pattern of failing writes, and a host bus that sends whatever frames the reader accepts, whenever it likes, the client receives at most one return or error for each serial it has called with, and none for other serials. The one condition on a frame is that a return to a name list call, or to a serial not used yet, has its header texts inside its header |
| `Correlation.StepKeepsInv` | container/dbus/router.go:277-538 | Every step keeps the session sound (each entry belongs to a message with the matching route; stored replies answer their key) and keeps, per serial, replies delivered + replies owed + replies in flight within what the client is due, with equality while no write has failed |
| `Origins.RepliesComeFromTheirRoute` | container/dbus/router.go:385-538 | Whatever the host sends, a reply from the host alone answers a call routed to the host, one from the container a call that reached it, a merged one a name list call, and one of the router a call it could not route; so a host reply never answers a call that only the container got |
| `Solicited.EveryHostReplyIsAwaited` | container/dbus/router.go:283-287 | If the host answers only calls it has received, each at most once, every host reply finds its pending or merge entry in every interleaving and with any writes failing (the branch for replies nobody asked for is unreachable), and no serial is in both maps |
| `Quiescence.ExactlyOneReply` | container/dbus/router.go:341-538 | Without failed writes and with buses that answer what they received, once everything has drained each call and each refused message has been answered exactly once, and nothing else has |
| `Quiescence.LeftoverEntries` | container/dbus/router.go:385-450 | The entries left in `hostPending` and `merges` after such a run are exactly those of messages to the bus itself, with a host bus present, that are neither calls nor signals and name `Hello`, a list query, or a match call with a host rule; so both maps are empty if and only if the client sent none |
| `Witnesses.EntryIsLeft` | container/dbus/router.go:385-450 | Each such message, sent alone, leaves its entry behind in a drained session in which nothing has failed |
| `Witnesses.EntryCanBeLeft` | container/dbus/router.go:385-398 | A real frame that does: a method return to the bus that names `Hello` |
| `Traffic.NothingIsLost` | container/dbus/router.go:341-450 | Without failed writes, whenever the dispatcher is idle, each bus has received, unchanged and in order, exactly the client messages whose route includes it, and the others have been answered by one error each, in order |
| `Delivery.PerBusOrder` | container/dbus/router.go:225-281 | The messages that reach the client from one bus alone are messages of that bus, unchanged, in the order in which it sent them, each at most once, in every run |
| `Delivery.StepHandsOne` | container/dbus/router.go:277-281 | A step hands at most one message to the client, and it is the one that the thread making the step had in hand |
| `Routing.EachBusGetsItsShare` | container/dbus/router.go:341-450 | Without failed writes, whenever the dispatcher is idle, and over the message and the names learned by then alone: the host bus alone has received what is addressed to a name on the host, requests for names under the ownership rule and questions about names on the host; both buses have received `Hello`, name lists, match calls that concern the host, and broadcast signals that do not claim to come from the bus; the container alone has received the rest, and all of it where there is no host bus, except what is addressed to a name on the host, which the client has been told about |
| `Forwarding.HostSignalsArrive` | container/dbus/router.go:452-563 | In every run: a host message that is neither reply nor signal never reaches the client, nor does a signal of the host bus itself other than `NameOwnerChanged`, `NameAcquired` and `NameLost` about a name that the rules name; once the host reader has read everything and no write has failed, each of these three and each signal that neither sender nor interface assigns to the host bus itself stands in the client stream exactly once |
| `Forwarding.ContainerMessagesArrive` | container/dbus/router.go:452-509 | Likewise every container message that is no reply stands in the client stream exactly once |
| `Lessons.LearnedNamesAreThoseTold` | container/dbus/router.go:289-563 | With a host that answers what it was asked, in every interleaving and with any writes failing: whenever the host reader waits, the learned names are exactly the unique names that the host has told, first in a return to the copied `Hello` or to a forwarded `GetNameOwner`, or third in a forwarded `NameOwnerChanged` of at least three texts |
| `ListCalls.ListCallsAreMerged` | container/dbus/router.go:425-434 | In every run, with any writes failing and any behaviour of the host bus, the client's reply to a name list call sent to both buses is the merged one if and only if the host bus has received the call; otherwise it is the container's own and a write has failed. The container's reply never misses its entry |
| `MergedReplies.MergedListsReachTheClient` | container/dbus/router.go:425-538 | In every run with a host bus and for either order of arrival, every reply at the client to `ListNames` or `ListActivatableNames`, where the host has received the call, is built from one reply of each bus to that very call; its bytes parse to a method return with that reply serial, and the serial and fields of the container's reply if that is a return and of the host's otherwise; its body decodes to the names of both, container first and without duplicates, if both are returns that decode, to the names of one if only that one is, and to none if neither is; two errors give the container error. Without failed writes this is every reply to such a call |
| `Subscriptions.SubscriptionsMirror` | container/dbus/router.go:398-408 | Without failed writes, whenever the dispatcher is idle, the host bus keeps each match rule exactly as often as the container bus does if the rule concerns the host, and not at all otherwise |
| `Origins.LearnedNamesAreUnique` | container/dbus/router.go:289-315 | In every run each learned name is a unique name that the host has told in its return to the copied `Hello` of the client or to a forwarded `GetNameOwner`, or in an owner change forwarded to the client; a name that is not unique is routed by the static rules alone, and a unique one to the host exactly when it has been learned |
| `Origins.HostRoutesAreKept` | container/dbus/router.go:289-315 | A name that is routed to the host at some point of a run is routed to the host ever after |
| `Descriptors.EachDescriptorHasOneOwner` | container/dbus/router.go:230-273 | After every run each descriptor received or duplicated is at exactly one place (queued, in one hand, stored in one merge entry, closed, or lost with an entry), and no path of any interleaving has closed one twice |
| `Descriptors.OnlyStoredRepliesStayOpen` | container/dbus/router.go:170-182 | With a host that answers what it was asked, no descriptor is ever lost, with any writes failing and wherever the session ends; once the readers are closed, which closes what has arrived for messages never read, every descriptor has been closed, none twice, except those of replies still stored in `merges` |
| `Descriptors.DrainedSessionClosesAll` | container/dbus/router.go:452-538 | In a drained session without failed writes every descriptor has been closed, once |
| `FdLedger.StepKeepsOwned` | container/dbus/router.go:317-325 | Each step moves the descriptors of the message it handles, closes them, or leaves them, so that each has one owner before and after |
| `ClientSessions.ClientSession.constructor` | container/dbus/router.go:150-161 | A new session has empty maps and streams and stands at the initial state of the step system |
| `ClientSessions.ClientSession.DispatchClientMessage` | container/dbus/router.go:341-364 | Dispatching a message makes the run take it up and finish it by dispatcher steps alone; the maps, the learned names, the three streams and the closed descriptors end as that run says; the container stream grows by the raw message exactly if no error is returned and the message is not for the host alone, the host stream only if it is for the host or for both, the client stream by one error exactly if it is refused |
| `ClientSessions.ClientSession.DispatchSignal` | container/dbus/router.go:366-383 | The same for signals; a failed copy of a broadcast to the host goes unnoticed |
| `ClientSessions.ClientSession.HandleDBusManagement` | container/dbus/router.go:385-450 | The same for calls to the bus itself: requests for a name under the ownership rule and questions about names on the host grow the host stream alone, everything else the container stream, and `Hello`, name lists and match calls that concern the host both; the entry is recorded before the host copy is written and removed if that write fails |
| `ClientSessions.ClientSession.SendToHost` | container/dbus/router.go:327-338 | A forwarded call is recorded, written, and forgotten again if the write fails; a message that is no call is only written |
| `ClientSessions.ClientSession.WriteHostCopy` | container/dbus/router.go:317-325 | A copy goes out with duplicated descriptors, and all duplicates are closed again whether or not the write succeeds |
| `ClientSessions.ClientSession.NoteHostPending` | container/dbus/router.go:283-287 | The entry stands before the dispatcher goes on to write to the host |
| `ClientSessions.ClientSession.RouteByName` | container/dbus/router.go:298-315 | The bus of a name: talk rules, ownership rules, then the learned names |
| `ClientSessions.ClientSession.Refuse` | container/dbus/router.go:350-361 | The client receives the `ServiceUnknown` error with the next serial of the router |
| `ClientSessions.ClientSession.RememberHostUnique` | container/dbus/router.go:289-296 | The learned names grow by the name if it is a unique name, and are unchanged otherwise |
| `ClientSessions.ClientSession.HandleUpstream` | container/dbus/router.go:452-509 | The next message of a bus is handled by steps of that reader alone, which ends waiting for the next one, or stopped if an error is returned; all effects are those of that run, and on an error the message has no descriptors left |
| `ClientSessions.ClientSession.TakeMerge` | container/dbus/router.go:511-538 | A reply is taken if and only if a merge entry exists for it; the second of the two replies removes the entry, is sent merged, and both are closed, the host reply first |
| `ClientSessions.ClientSession.StoreReply` | container/dbus/router.go:511-530 | The critical section of the merge: the reply is stored on its side, or completes the entry with the reply already stored on the other side |
| `ClientSessions.ClientSession.AcceptHostReply` | container/dbus/router.go:467-502 | A host reply that completes no merge is delivered only if a forwarding entry asks for it; the answers to `Hello` and `GetNameOwner` teach names |
| `ClientSessions.ClientSession.ShouldForwardHostSignal` | container/dbus/router.go:540-563 | Every signal is forwarded that does not come from the host bus itself, and of those that do the three owner signals about names that the rules name; the name that a `NameOwnerChanged` teaches on the way is learned |
| `ClientSessions.ClientSession.SendOn` | container/dbus/router.go:505-508 | The client stream grows by exactly the raw message, or not at all if the write fails, and the descriptors are closed in both cases |
| `ClientSessions.ClientSession.ServeClientMessage` | container/dbus/router.go:262-273 | One turn of the dispatch loop leaves no close undone |
| `ClientSessions.ClientSession.ServeBusMessage` | container/dbus/router.go:225-260 | One turn of a reader loop closes nothing twice, although the loop closes a message that could not be handled once more |
| `ClientSessions.ClientSession.CloseFDs` | container/dbus/wire.go:58-66 | Every descriptor of the message is closed once, in order, and the message keeps none |
| `ClientSessions.ClientSession.CopyFDs` | container/dbus/wire.go:455-476 | One duplicate per descriptor if every one can be made, and otherwise none, with every duplicate made so far closed again |
| `ClientSessions.ClientSession.NextSerial` | container/dbus/router.go:52-55 | Serials count up and wrap around at 2^32 |
| `Serving.ServeSession` | container/dbus/router.go:150-274 | From the first byte of a connection: the loops start unless that byte is not NUL, no `BEGIN` line comes, or a response cannot be written; with the three loops taking turns in any order: the messages dispatched are, in order, the frames of the bytes behind the `BEGIN` line, and those taken from each bus the frames of its stream; all of them unless a write fails or connections are cut; if the client never reuses a serial and the buses send only what they may, what happens is a valid run, so that the theorems about runs hold of it |
| `Serving.ServeLoops` | container/dbus/router.go:220-273 | The three loops after the handshake: what each has read of its stream, and where it stands when all have ended |
| `Serving.TakeTurn` | container/dbus/router.go:225-273 | One turn of a loop: the next frame of its stream is read and handled by steps of its thread alone, and the other loops stand where they stood |
| `EndToEnd.FramesRead` | container/dbus/wire.go:84-175 | Of frames written one after the other, whatever descriptors come along, the messages read are the first ones, up to their descriptors; all of them, with nothing left, if and only if every size is accepted and as many descriptors come along as the headers declare |
| `EndToEnd.BusStreamsRead` | container/dbus/wire.go:403-425 | The bytes that each bus receives are the concatenated raw messages routed to it; with any descriptors they read back as the first of these messages, and as all of them exactly if enough descriptors come along, which a copy sent without its descriptors prevents; without failed writes these are all the messages routed to the bus |
| `EndToEnd.ClientStreamReads` | container/dbus/wire.go:403-425 | The client stream is always a concatenation of whole frames; it reads back as exactly the messages sent, in order, if and only if each is at most 2^27 bytes long and no merged reply declares descriptors |
| `Readability.MergedIsReadable` | container/dbus/router.go:565-588 | What two replies merge into can be read if and only if header and merged body stay within 2^27 bytes and the header taken over declares no descriptors |
| `Readability.ModestRunsRead` | container/dbus/router.go:511-538 | If nothing that the router receives is longer than 16 MiB, and no reply to a name list call declares descriptors, the client reads back exactly what was sent |
| `Witnesses.DescriptorsAreLost` | container/dbus/router.go:532-536 | If the container's return to a name list call declares descriptors, the merged reply declares them and does not carry them, and the client stream does not read back, in a run without failed writes |
| `Witnesses.StreamCanBeUnreadable` | container/dbus/router.go:532-536 | Real frames for which this happens |
| `EndToEnd.ClientReadsAtMostOneReply` | container/dbus/router.go:277-538 | Among the messages that the client reads from the bytes it is sent, whatever descriptors come along, at most one answers each of its calls, and none anything else |
| `EndToEnd.SessionStreamsRead` | container/dbus/router.go:135-148 | The same of the session object after any sequence of its methods that makes a valid run |
| `Reader.MessageReader.ReadMessage` | container/dbus/wire.go:84-175 | The result, the bytes left and the descriptors left depend on the whole stream only, not on how it is split into reads; all error cases included |
| `Reader.MessageReader.ClaimFds` | container/dbus/wire.go:158-174 | A frame gets the next `UnixFDs` descriptors in arrival order, waiting for late ones |
| `Reader.MessageReader.FillBuffer` | container/dbus/wire.go:116-152 | Reading until enough bytes are buffered keeps all bytes and descriptors, and fails exactly if the stream does not have them |
| `Reader.MessageReader.ReadAll` | container/dbus/router.go:262-273 | The messages read until the first error are the successive frames of the stream |
| `Reader.MessageReader.Close` | container/dbus/wire.go:478-485 | The descriptors that no message has claimed are handed to close, each once, and none is left pending |
| `Reader.NextIsWholeFrame` | container/dbus/wire.go:115-175 | A message returned is one whole accepted frame cut off the front of the stream, with the first descriptors; a failed call keeps all descriptors and drops at most one frame |
| `Reader.StreamConserved` | container/dbus/wire.go:84-175 | Conservation: the bytes received are the frames returned, then what the failing call dropped, then the buffer; the descriptors received are those handed out, then those pending |
| `Reader.WrittenFramesRead` | container/dbus/wire.go:84-175 | Whole frames written one after the other are read back as exactly those messages, and reading goes on behind them |
| `Reader.MessagesAreStable` | container/dbus/wire.go:84-175 | Later bytes and descriptors never change the messages read before |
| `Reader.PartsFillFrame` | container/dbus/wire.go:133-152 | Header length and body length of a returned message add up to its frame if and only if the declared body length is at most 2^27 |
| `Reader.WrappedFrameAccepted` | container/dbus/wire.go:137-145 | A frame whose declared body length wraps around `uint32` passes the size check with a header longer than the frame |
| `Wire.ParseHeader` | container/dbus/wire.go:265-401 | Header parsing never leaves the frame and ends for every input and all declared lengths; it fails exactly for short frames, unknown byte orders and field arrays longer than the frame. What it finds where is stated in plain bytes by the lemmas of `WireLayout` |
| `WireLayout.FixedHeaderLayout` | container/dbus/wire.go:265-312 | In bytes: a frame parses if and only if it has 16 bytes, begins with `l` or `B`, and its field array ends inside it; second byte 1, 2, 3, 4 is call, return, error, signal; body length, serial and field array length are bytes 4 to 7, 8 to 11 and 12 to 15, least significant first for `l` and last for `B` |
| `WireLayout.TextFieldLayout` | container/dbus/wire.go:314-367 | A struct of code, `1 s 0` or `1 o 0`, length, text and zero at a boundary, in either byte order: codes 1, 2, 3, 4, 6 and 7 set path, interface, member, error name, destination and sender, other codes nothing, and parsing goes on behind it |
| `WireLayout.UintFieldLayout` | container/dbus/wire.go:369-383 | A struct of code, `1 u 0` and four bytes: codes 5 and 9 set reply serial and descriptor count, other codes nothing |
| `WireLayout.SignatureFieldLayout` | container/dbus/wire.go:385-392 | A signature struct is skipped with its one-byte length and final zero |
| `WireLayout.FieldsEndLayout` | container/dbus/wire.go:314-397 | The fields end behind the array, at a struct cut off before the zero of its signature, and at a value of any other type |
| `WireLayout.CutTextIsSkipped` | container/dbus/wire.go:339-352 | A text longer than the frame is not stored and parsing goes on behind its length; one without room for its length ends the fields |
| `WireLayout.CutNumberIsSkipped` | container/dbus/wire.go:369-392 | A number without room for its four bytes in the frame, or a signature without room for its length in the array, ends the fields |
| `WireLayout.FieldsAreAligned` | container/dbus/wire.go:314-319 | Between two structs the parser skips to the next multiple of eight |
| `WireLayout.LoneTextField` | container/dbus/wire.go:265-401 | A whole frame with one text field, in either byte order, parses to exactly that field |
| `WireLayout.NextFrameLayout` | container/dbus/wire.go:115-175 | The next frame is as many bytes as its header announces, modulo 2^32, and takes as many of the next descriptors as it declares; more than 134217728 bytes are refused, fewer than announced waited for |
| `Wire.ReadValue` | container/dbus/wire.go:338-397 | Each signature case, with the positions at which the skipped cases leave the parser |
| `Wire.ReadStruct` | container/dbus/wire.go:314-335 | One turn of the field loop, with the points at which the loop is left |
| `Bodies.ReplaceBody` | container/dbus/wire.go:241-263 | The new frame is the old header with the new body and its length; the result is its parse, or the patched copy where it does not parse |
| `Bodies.BodyReplaced` | container/dbus/wire.go:241-263 | For a message with a well-formed field array: type, flags, serial, reply serial and all header fields are kept, the body is exactly the new one, and both lengths are right |
| `Bodies.ReplacedFrameParses` | container/dbus/wire.go:253-261 | For every frame the reader accepts, the fallback of `ReplaceBody` is never taken |
| `Bodies.FieldsIgnoreBody` | container/dbus/wire.go:307-400 | A contained field array parses to the same fields whatever follows the header |
| `Bodies.ParsingIgnoresBodies` | container/dbus/wire.go:347-352 | The exact condition: the parser takes the same way through a header whatever body follows if and only if no text value of the header runs beyond its end |
| `Bodies.EscapingTextChangesReply` | container/dbus/wire.go:347-352 | Without that condition a new body can change the header: frames that answer call 7 before their body is replaced and call 9 after |
| `Bodies.EscapingFrameExists` | container/dbus/wire.go:347-352 | Such a frame |
| `HeaderFields.AppendFieldString` | container/dbus/router.go:701-728 | A text field: alignment of the struct, code, signature, length, bytes and terminator |
| `HeaderFields.AppendFieldUint32` | container/dbus/router.go:730-755 | A `UINT32` field |
| `HeaderFields.AppendFieldSignature` | container/dbus/router.go:757-774 | A signature field; the length byte is truncated to eight bits |
| `HeaderFields.FieldsRoundTrip` | container/dbus/router.go:701-774 | The parser recovers any list of appended fields, stored in order |
| `HeaderFields.LastFieldWins` | container/dbus/wire.go:354-383 | What is stored of such a list is, for each of the codes 1 to 7 and 9, its last value of the right type |
| `HeaderFields.AppendedFieldsContained` | container/dbus/router.go:701-774 | Appended fields never run beyond their array |
| `BuiltFrames.BuiltReads` | container/dbus/router.go:668-684 | Any frame put together from a fixed header, a field array, its padding and a body parses back to its type, flags, serial, fields and body, and its header stands for itself |
| `ErrorReply.NewErrorMessage` | container/dbus/router.go:651-699 | The error struct and its raw frame |
| `ErrorReply.ErrorReplyReads` | container/dbus/router.go:651-699 | The raw frame parses back to an error with flag 1, the given serial and error name, the serial and sender of the message as reply serial and destination, and no other field; its lengths add up and its body decodes to the error text alone |
| `Routing.RefusalReads` | container/dbus/router.go:350-361 | The bytes of the refusal parse to the error `org.freedesktop.DBus.Error.ServiceUnknown` for the caller and its serial, with the text that names the destination |
| `Texts.ExtractBodyStrings` | container/dbus/router.go:626-649 | The body decoder never leaves the body and ends for every input |
| `Texts.ExtractFirstStringArg` | container/dbus/router.go:618-624 | The first text of the body, or none |
| `Texts.TextsRoundTrip` | container/dbus/router.go:626-649 | A body of k aligned texts decodes to exactly those k |
| `Texts.FirstTextReads` | container/dbus/router.go:618-649 | A body that begins with a marshalled text has it first, whatever follows |
| `BodyLayout.TwoTextsLayout` | container/dbus/router.go:618-649 | In bytes: length, text, zero, up to three bytes to the next multiple of four, length, text, zero decode to the two texts |
| `BodyLayout.NoTextLayout` | container/dbus/router.go:631-643 | A body without room for the length, or for the text and zero that it announces, has no text |
| `NameLists.ParseStringArray` | container/dbus/wire.go:184-219 | The array decoder never leaves the body and ends for every input; all error cases |
| `NameLists.EncodeStringArray` | container/dbus/wire.go:221-239 | The marshalled array with its padding |
| `NameLists.NamesRoundTrip` | container/dbus/wire.go:184-239 | In both byte orders decoding an encoded list returns exactly the list, for every list whose array length fits `uint32` |
| `BodyLayout.TwoNamesLayout` | container/dbus/wire.go:184-219 | In bytes: an array length that counts what follows it, then two texts, decode to the two names |
| `BodyLayout.EncodedLayout` | container/dbus/wire.go:221-239 | No name is encoded as four zeros, two names as their length in bytes and the two texts with zeros between them |
| `BodyLayout.BrokenListLayout` | container/dbus/wire.go:184-219 | A missing array, one longer than the body, and a text that is not complete in the body are refused; a text that is complete in the body is taken although it leaves the array |
| `NameLists.UniqueStrings` | container/dbus/router.go:590-601 | The list without later duplicates |
| `NameLists.UniqueKeepsFirsts` | container/dbus/router.go:590-601 | It has the same elements, each once, in the order of their first occurrence |
| `Merging.MergeNameListReplies` | container/dbus/router.go:565-588 | The merged reply as a function of the two replies; what it says, name by name, is stated by `MergedReplyReads` |
| `Merging.MergedReplyReads` | container/dbus/router.go:565-588 | For any mix of byte orders the merged bytes parse to a method return with the serial, reply serial and fields of the container's reply if that is a return, else of the host's; where `ParseNames` gives a and b for two returns its body decodes to a and b united, first occurrences, container first; where only one is a return that decodes, to that one's names; where none is, to no names; the lengths are right |
| `Merging.MergedBodySize` | container/dbus/router.go:565-588 | The merged body is at most four bytes and twice the two replies long |
| `Merging.MergedNamesFit` | container/dbus/router.go:565-588 | Two replies of accepted size never overflow the length of the merged array |
| `Handshake.AuthenticateClient` | container/dbus/sasl.go:26-122 | The bytes handed over and those still unread are together exactly those behind the `BEGIN` line, every line before it got one response, `BEGIN` none; the failures are told apart |
| `Handshake.AnswerLine` | container/dbus/sasl.go:42-120 | One line is consumed and answered by one response, or the handshake ends |
| `Handshake.LineReader.ReadLine` | container/dbus/sasl.go:40-46 | One line is taken off the front of the stream, whatever the reads deliver, and nothing else is lost |
| `CommandLines.ConversationIsHandedOver` | container/dbus/sasl.go:40-122 | For any lines that do not say `BEGIN`, a line that does, and any binary data behind it: one response per line and exactly the binary data handed over. A line says a word if it is white space, the word, and then the end or white space |
| `CommandLines.BeginLine` | container/dbus/sasl.go:48-109 | A line is a `BEGIN` line if and only if, behind any white space, it says the bytes 66 69 71 73 78 and ends there or goes on with white space |
| `CommandLines.BeginStartsTheStream` | container/dbus/sasl.go:99-109 | Whatever follows the seven bytes of the usual `BEGIN` line is the binary stream |
| `CommandLines.WordsSplit` | container/dbus/sasl.go:48-49 | Splitting at white space: white space has no words, and a word between white space comes before the words behind it |
| `CommandLines.AuthLines` | container/dbus/sasl.go:57-88 | However the words are spaced: `AUTH EXTERNAL` with any identity is accepted, without one the client is asked for it, and `AUTH` alone or with another mechanism is rejected, each with the exact response line |
| `CommandLines.OtherLines` | container/dbus/sasl.go:49-120 | `DATA` is accepted, `NEGOTIATE_UNIX_FD` agreed to, and any other word, or none, rejected, each with the exact response line |
| `CommandLines.UsualConversation` | container/dbus/sasl.go:40-122 | `AUTH EXTERNAL` with any identity, `NEGOTIATE_UNIX_FD`, `BEGIN` and data, byte by byte: the two responses, and exactly the data handed over |
| `Rules.WildcardStopsAtDot` | container/dbus/rules.go:27-42 | A wildcard rule matches its prefix and the names below it, and nothing that merely begins like it |
| `Rules.UniqueNamesStayInside` | container/dbus/rules.go:44-72 | No static rule sends a unique connection name to the host |
| `Rules.RuleTables` | container/dbus/rules.go:13-72 | A name is talked to on the host if and only if it is `org.freedesktop.portal` or lies below it, or is one of the four other names; it is owned on the host if and only if it is `org.mpris.MediaPlayer2` or lies below it |
| `Rules.SignalRuleTable` | container/dbus/rules.go:74-84 | A match rule concerns the host if and only if one of the five names, wildcard cut off, stands somewhere in its text |
| `Routing.BusCallRoutes` | container/dbus/router.go:385-450 | Calls to the bus itself by their literal members: names are requested and released on the host alone exactly under the ownership rule, asked about on the host alone exactly if they are on the host; `Hello` and match calls that concern the host go to both buses, name lists to both and are merged, all others to the container alone; without a host bus all do |
| `Routing.NamedRoutes` | container/dbus/router.go:347-364 | Other messages go to the host exactly if their destination is on the host, and are refused where there is no host bus |
| `Routing.SignalRoutes` | container/dbus/router.go:366-383 | A broadcast reaches both buses unless its interface is that of the bus, a directed signal the bus of its destination |
| `Routing.NotificationCallReachesHost` | container/dbus/router.go:341-364 | Byte by byte and in both byte orders: the frame of a call to `org.freedesktop.Notifications` is read whole, parses to that destination and goes to the host alone |
| `Bytes.StoredUint32` | container/dbus/wire.go:133-134 | An integer stored in either byte order reads back |
| `Bytes.PutUint32` | container/dbus/wire.go:228-238 | Storing an integer changes its four bytes only |

## Left out

- Message: the model's message is a value. The code shares pointers, clears `FDs` in place and keeps a stored reply alive through its pointer; the class returns the message as a call leaves it instead, so aliasing is not captured.
- ClientSessions.ClientSession.HandleUpstream: runs one turn without interruption, as do all methods of the class; what other threads do between its critical sections is covered by the theorems about the step system, whose steps are the places where its calls of `Read` and `Act` stand.
- ClientSessions.ClientSession.HandleDBusManagement: requires a message to the bus itself that is no signal, which its one caller has checked.
- ClientSessions.ClientSession.SendToHost: has no parameter for the kind of entry, because every call in the code passes the forwarding kind.
- Serving.ServeSession: lets the three threads take turns, one message each, in any order. What happens when turns overlap is the subject of the step system. Another thread closing the connections is a loop that ends early. Dialling the two buses and the handshakes with them are left out.
- ListCalls.ListCallsAreMerged: is about calls whose route was both buses. With no host bus a name list call goes to the container alone and its reply is passed on as it is.
- Merging.MergedReplyReads: needs a well-formed field array in the reply that it is built on. Without it the reply serial can change, see `Bodies.EscapingTextChangesReply`.
- Bodies.BodyReplaced: states one direction. The exact condition is stated for the parser's way through the header, in `Bodies.ParsingIgnoresBodies`, because two different ways can happen to store the same fields.
- Merging.MergeNameListReplies: requires eight header bytes, which every frame of a reader has (`Bodies.ReplacedFrameParses`); with less the code would fail at run time.
- ErrorReply.NewErrorMessage: requires that the lengths fit 32 bits, which they do for every message that a reader returns (`ErrorReply.ParsedTextsFit`).
- HeaderFields.FieldsRoundTrip: takes texts below 2^32 bytes and signatures below 256 bytes, the longest that their length fields can tell.
- Quiescence.ExactlyOneReply: counts every call as one that is answered; calls with the flag for no reply are not treated apart.
- Handshake.AuthenticateClient: does not follow descriptors. The handshake uses plain reads, which lose descriptors that arrive early.
- Handshake.AnswerLine: splits at ASCII white space; the code also splits at Unicode white space.
- Lessons.LearnedNamesAreThoseTold: states which names are learned, and not which bus owns a unique name. The code does not resolve collisions between unique names of the two buses.
- Subscriptions.SubscriptionsMirror: treats a match rule as a text. What a rule matches, and spelling the same rule differently, are left out.
- Descriptors.EachDescriptorHasOneOwner: assumes that the system hands out descriptors that are not in use; each one received or duplicated is a distinct handle.
- `Session.Enabled` assumes distinct serials of the client, and header texts that end in the header for returns to name list calls (and to serials not used yet): the frames whose body is replaced.
- Sockets, `recvmsg`, `sendmsg`, partial writes and control messages: a read delivers a chunk of bytes and descriptors, a write delivers all of its bytes or none. Truncation of control messages is left out.
- Go's `int` is taken to have 64 bits.
- `hostUniqueName`, the client's own name on the host, is stored as in the code, which never reads it; nothing is stated about it.
- `AuthenticateUpstream`, `Router.Start`, the daemon, pid files, timeouts, signals, logging and closing of connections: process plumbing.
- The policy of the handshake (identities are not checked, `BEGIN` may come before `OK`): kept as it is; `CommandLines` states what is answered, and nothing is claimed about whether it should be.
- Header variants other than `s`, `o`, `u` and `g`: modelled as in the code, which skips to the end of the field array.
- The rest of lxg (containers, systemd, mounts, environment, commands): command execution and argument handling.
