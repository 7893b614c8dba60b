# whapp-irc bridge core in Dafny

whapp-irc is a gateway that presents a WhatsApp Web session to an IRC client.
It covers three parts of the gateway:

- **The IRC connection** (`ircconnection/ircconnection.go`). It models the reader loop that answers
  `PING`, ends on `QUIT`, stores `NICK` and `PASS`, negotiates IRCv3
  capabilities on `CAP` and queues every other command for the application.
  It also models the writers: `Write` adds a `@time=` tag once `server-time`
  has been negotiated, `WriteListNow` stops at the first failed write, and
  `PrivateMessage` and `Status` build on `Write`. The session is a value,
  `IrcSession.Session`, and the pure functions of module `IrcSession` say
  what each step does to it. The class `IrcConnection.Connection` keeps the
  same fields and updates them in place. Each of its methods is proved to
  leave it in the state the matching function computes, and the reader loop
  `Listen` is a `while` loop over the reads.
- **The message bridge** (`whappMessages.go`). It models how an incoming
  WhatsApp message is handled:
  1. the chat is registered if it is new;
  2. a group the client has not joined is joined;
  3. a message already seen is dropped;
  4. the message ID is recorded and the chat's last timestamp is moved forward;
  5. messages sent from the web client stop there;
  6. group and call notifications are written to the IRC session as
     `JOIN`, `PART`, `KICK` or a private message;
  7. every other message's media is downloaded and stored once, and the
     message (after the message it quotes, if any) is handed to the relay
     handler.

  The module `WhappMessages` states this as functions over a
  `Bridge` value. The class `BridgeConnection.Connection` does the same
  in place and is proved equal to those functions.
- **The media key table** (`whapp/constants.go`): `cryptKeys` and
  `getCryptKey`.

The properties proved about the bridge include:
- a message is relayed at most once over any history of deliveries;
- a message that was already seen relays nothing;
- a chat's last timestamp never goes back;
- a stored media file is never replaced, and media already stored is never
  downloaded again;
- notification lines are written in recipient order;
- a chat stops being joined exactly when the local user leaves or is removed
  from it;
- a message JOINs at most its own chat, and only when that chat is a group
  the client has not joined; a notification never JOINs the local user.

About the IRC connection, the proofs show:
- only non-local commands reach the queue, in arrival order;
- `CAP REQ` accepts every requested token;
- `WriteListNow` writes a prefix of its lines, in order;
- once the loop has ended, further reads change nothing.

Calls into code that is not part of this model are replaced as follows:
- The outside services are parameters of each step. The participant fetch,
  `joinChat`, the media download, the blob store and the relay handler
  appear as their answers, in `WhappMessages.Replies`.
- The pure helpers defined in other packages are function-valued fields of
  `WhappMessages.Collaborators`.
- The socket is a record of the lines written so far, plus the number of
  writes it still accepts.
- The wall clock is a parameter too: the formatted time of each read, and
  the one given to `WriteListNow`.

A message redelivered to a group chat the client has left joins that chat
again before it is dropped as a duplicate, because the join happens before
the duplicate check (`whappMessages.go:99-107`). `MessageProperties.Redelivery`
states the whole outcome of a redelivered message as one equation.

## Model

| member | source | states |
|---|---|---|
| Capabilities.Empty | ircconnection/ircconnection.go:43 | a new connection has negotiated no capability and has no negotiation open |
| Capabilities.StartNegotiation | ircconnection/ircconnection.go:103 | every `CAP` opens negotiation and keeps the negotiated tokens |
| Capabilities.FinishNegotiation | ircconnection/ircconnection.go:119-120 | `CAP END` closes negotiation and keeps the negotiated tokens |
| Capabilities.Add | ircconnection/ircconnection.go:113-115 | adding a token makes it present and adds nothing else; a token already present changes nothing; the set never holds a token twice |
| Capabilities.AddAll | ircconnection/ircconnection.go:112-115 | adding the tokens of a `CAP REQ` one by one keeps the set free of repeats and leaves the negotiation flag as it was |
| Capabilities.AddAllExactly | ircconnection/ircconnection.go:112-117 | after a `CAP REQ` loop the set holds exactly the old tokens plus the requested ones, and the old tokens keep their order at the front |
| GoStrings.Split | ircconnection/ircconnection.go:113 | splitting gives at least one part, and no part contains the separator |
| GoStrings.JoinSplit | ircconnection/ircconnection.go:113 | joining the parts of a split gives back the original text |
| GoStrings.SplitJoin | ircconnection/ircconnection.go:117 | splitting a join of separator-free parts gives back those parts |
| GoStrings.ExtShape | whappMessages.go:65 | a non-empty extension is a suffix of the path, starts with its only dot and holds no slash |
| GoStrings.ExtNone | whappMessages.go:65-66 | the extension is empty exactly when the last path element has no dot |
| GoStrings.BareExt | whappMessages.go:64-69 | the fallback extension has no dot or slash, and the file name ends with a dot followed by it |
| CryptKeys.CryptKey | whapp/constants.go:15-21 | a listed type gets its table entry and any other type gets the document key; every key is non-empty hex text of whole bytes and comes from the table |
| CryptKeys.TableIsHexBytes | whapp/constants.go:6-13 | every key in the table is non-empty lower-case hex of whole bytes |
| CryptKeys.SharedKeys | whapp/constants.go:6-13 | image and sticker share a key, as do audio and ptt; the image, video, audio and document keys are pairwise distinct |
| CryptKeys.UnknownTypeIsDocument | whapp/constants.go:15-21 | a type outside the six listed ones gets the document key |
| IrcSession.Start | ircconnection/ircconnection.go:40-52 | a new session has written nothing, queued nothing, is running and has not had its password set |
| IrcSession.Tagged | ircconnection/ircconnection.go:138-142 | the message is sent unchanged unless `server-time` was negotiated; if it was, `@time=<stamp> ` comes first; for lines starting with ':' a leading '@' shows whether the tag was added |
| IrcSession.Send | ircconnection/ircconnection.go:132-135 | a write succeeds exactly while the socket accepts writes; it then adds the text with a newline to the output and uses one write; a failed write changes nothing; nothing else ever changes |
| IrcSession.Write | ircconnection/ircconnection.go:137-150 | a write succeeds exactly while the socket accepts writes, and then adds exactly the tagged line to the output; only the output and the socket's capacity change |
| IrcSession.LinesAt | ircconnection/ircconnection.go:159-166 | line `i` on the socket is message `i` tagged with the common time, with its newline |
| IrcSession.WriteList | ircconnection/ircconnection.go:159-166 | writing a list only appends to the output and uses up capacity; nothing else changes |
| IrcSession.WriteListOk | ircconnection/ircconnection.go:159-166 | `WriteListNow` reports success exactly when the socket accepts every line |
| IrcSession.WriteListPrefix | ircconnection/ircconnection.go:159-166 | the lines are written in order up to the first refused write, nothing after it is written, and only the output changes |
| IrcSession.PrivateMessage | ircconnection/ircconnection.go:168-174 | a private message succeeds exactly while the socket accepts writes and then adds exactly the formatted line tagged with its date; only the output and capacity change |
| IrcSession.Status | ircconnection/ircconnection.go:176-180 | a status line is a private message from `status` to the current nick |
| IrcSession.HandleCap | ircconnection/ircconnection.go:102-121 | the `CAP` sub-commands keep the capability set free of repeats |
| IrcSession.HandleMessage | ircconnection/ircconnection.go:81-125 | every command keeps the capability set free of repeats |
| IrcSession.Dispatch | ircconnection/ircconnection.go:69-79 | one pass of the reader loop keeps the capability set free of repeats |
| IrcSession.Listen | ircconnection/ircconnection.go:69-127 | the reader loop keeps the capability set free of repeats |
| IrcSession.Forwarded | ircconnection/ircconnection.go:123-124 | none of PING, QUIT, NICK, PASS or CAP is ever handed on, and at most one message is handed on per read |
| IrcSession.PingAnswered | ircconnection/ircconnection.go:82-87 | a PING is answered with exactly `:whapp-irc PONG whapp-irc :<token>`, is not queued, and only the output changes |
| IrcSession.PingWriteFailureStops | ircconnection/ircconnection.go:84-86 | a PONG the socket refuses ends the loop and changes nothing else |
| IrcSession.DispatchQueue | ircconnection/ircconnection.go:81-125 | a read appends to the queue exactly the message it hands on, and only one the loop does not handle itself |
| IrcSession.LoopEnds | ircconnection/ircconnection.go:70-90 | end of stream, a read error and QUIT end the loop; an invalid line is skipped and changes nothing |
| IrcSession.StoppedIsFinal | ircconnection/ircconnection.go:63-72 | once the loop has ended, further reads change nothing |
| IrcSession.ListenQueue | ircconnection/ircconnection.go:69-127 | while the loop runs, the queue receives exactly the handed-on messages of all reads, in arrival order |
| IrcSession.ListenQueuePrefix | ircconnection/ircconnection.go:69-127 | for the number `k` of reads the loop ran through (the next read, if any, ended it), the queue holds exactly the handed-on messages of those `k` reads, in order, and nothing from any later read |
| IrcSession.PassStored | ircconnection/ircconnection.go:95-100 | PASS stores its first parameter, or "" without one, sets the password-ready flag and changes nothing else |
| IrcSession.PassReadyStays | ircconnection/ircconnection.go:95-100 | once the password-ready flag is set, it stays set for every later read |
| IrcSession.NickSet | ircconnection/ircconnection.go:92-93 | NICK sets the nick to its first parameter and changes nothing else |
| IrcSession.CapReqAdds | ircconnection/ircconnection.go:112-116 | CAP REQ accepts every space-separated token of the trailing parameter, even when the ACK cannot be written: the set afterwards holds exactly the old tokens and the requested ones, the old ones first; negotiation stays open and nothing is queued |
| IrcSession.CapReqAcks | ircconnection/ircconnection.go:116-117 | the reply to CAP REQ is one ACK line listing the whole resulting set |
| IrcSession.CapListReply | ircconnection/ircconnection.go:108-110 | the reply to CAP LIST is one LIST line naming the negotiated tokens, which stay as they were |
| IrcSession.CapNegotiation | ircconnection/ircconnection.go:102-121 | every CAP except END leaves negotiation open; only REQ changes the tokens; LS writes the fixed capability list; END and unknown sub-commands write nothing |
| IrcConnection.Connection.constructor | ircconnection/ircconnection.go:40-52 | the connection starts in the state `IrcSession.Start` describes |
| IrcConnection.Connection.Send | ircconnection/ircconnection.go:132-135 | writes the text with a newline, or fails once the socket accepts no more writes |
| IrcConnection.Connection.Write | ircconnection/ircconnection.go:137-150 | updates the connection as `IrcSession.Write` says: the tagged line is written, or the write fails |
| IrcConnection.Connection.WriteListNow | ircconnection/ircconnection.go:157-166 | the loop leaves the connection as `IrcSession.WriteList` says, so `WriteListOk` and `WriteListPrefix` hold of it |
| IrcConnection.Connection.PrivateMessage | ircconnection/ircconnection.go:168-174 | writes the formatted private message stamped with its date |
| IrcConnection.Connection.Status | ircconnection/ircconnection.go:176-180 | writes a private message from `status` to the current nick |
| IrcConnection.Connection.HandleEvent | ircconnection/ircconnection.go:69-125 | one pass of the reader loop updates the fields as `IrcSession.Dispatch` says |
| IrcConnection.Connection.HandleCap | ircconnection/ircconnection.go:102-121 | the CAP switch, including the REQ token loop, updates the fields as `IrcSession.HandleCap` says |
| IrcConnection.Connection.Listen | ircconnection/ircconnection.go:69-127 | the reader loop over a sequence of reads leaves the connection as `IrcSession.Listen` says |
| WhappMessages.FormatContact | whappMessages.go:14-19 | the participant carries the contact and the contact's ID |
| WhappMessages.FindName | whappMessages.go:160-171 | gives the safe name of the first participant with the ID; with no such participant, the identifier of a registered direct chat with that ID, else the ID's user part |
| WhappMessages.NotificationLine | whappMessages.go:193-233 | a recipient gets a line exactly for add and invite of someone else, leave, remove and a missed call; create and unknown subtypes get none |
| WhappMessages.NotifyOne | whappMessages.go:184-237 | one recipient changes at most the output and the chat's `Joined` flag, and fails only with a write error |
| WhappMessages.NotifyAll | whappMessages.go:184-238 | the recipient loop only adds output and changes only `Joined` flags; it either succeeds or fails with a write error |
| WhappMessages.HandleNotification | whappMessages.go:151-241 | a notification changes at most the output and `Joined` flags |
| WhappMessages.Relays | whappMessages.go:139-148 | only relays of this message are added, its own relay last; it succeeds exactly when both relay handlers accept, and then the last relay is the message's own |
| WhappMessages.RelayMessage | whappMessages.go:122-148 | only the media store and the relays of this message change, and the relays are appended after the earlier ones |
| WhappMessages.HandOff | whappMessages.go:116-120 | a message sent from the web client changes nothing; otherwise only the output, `Joined` flags, media and relays of this message change |
| WhappMessages.Proceed | whappMessages.go:97-120 | a group that cannot be joined stops the message with the join error and changes nothing; otherwise the message's ID ends up recorded in its chat; no chat is added or removed and relays are only appended |
| WhappMessages.HandleMessage | whappMessages.go:83-149 | chats are only added, emissions only appended and the local user never changes; a message handled without error, except an end-to-end notification, has its chat registered and its ID recorded |
| MediaProperties.StoreGrows | whappMessages.go:52-81 | `DownloadAndStoreMedia`: downloads happen exactly for missing MMS media; a file is added only when download and store succeed; no stored file changes; the error is the download's, otherwise the store's |
| MediaProperties.DownloadedOnce | whappMessages.go:57-58 | once a file is stored, another message with the same hash downloads nothing and changes nothing |
| MediaProperties.StoredExtensionFallback | whappMessages.go:63-69 | the detected extension wins; otherwise the file name's extension is used without its dot, and it is empty exactly when the name has no extension beyond a bare dot |
| MediaProperties.BodyPrecedence | whappMessages.go:21-50 | `MessageBody`: a location gives the map link; otherwise media gives the file URL when stored and `--file--` before, followed by one space and the formatted caption when there is a caption, and by nothing otherwise; plain text is formatted |
| MediaProperties.StoredMediaShown | whappMessages.go:35-45 | after a successful download and store, the body shows the stored file's URL |
| MessageProperties.Recorded | whappMessages.go:89-114 | a fresh message leaves its chat registered, joined if a group, with its ID recorded, the timestamp moved only forward, and one save per move |
| MessageProperties.FreshHandOff | whappMessages.go:83-120 | a fresh message reaches the web, notification or relay step in the recorded state |
| MessageProperties.ProceedFrame | whappMessages.go:99-108 | after registration, no chat is added or removed, entries change only in `Joined`, and the message's ID is recorded unless the join failed |
| MessageProperties.ProceedNew | whappMessages.go:99-114 | a message new to a joinable chat is recorded and changes no other entry except `Joined` flags |
| MessageProperties.Registration | whappMessages.go:85-108 | a chat is added exactly when it was missing and its participants could be fetched; no other entry changes except `Joined`; the ID is recorded unless joining failed |
| MessageProperties.Redelivery | whappMessages.go:99-107 | an already seen message gives exactly: nothing for an end-to-end notification; the join error, with nothing changed, when a needed rejoin fails; the rejoin of a group the client is no longer in, and Handled; otherwise nothing changed, and Handled |
| MessageProperties.JoinFailure | whappMessages.go:99-103 | a failed join returns the join error; the chat stays registered and nothing else changes |
| MessageProperties.Timestamps | whappMessages.go:110-114 | the last timestamp moves and one save starts exactly when a fresh message is newer than it |
| MessageProperties.TimestampsOnlyGrow | whappMessages.go:110-114 | no chat's last timestamp ever decreases or disappears |
| MessageProperties.FromWebNotRelayed | whappMessages.go:116-117 | a message sent from the web client is handled without output, media or relay |
| MessageProperties.ProceedEmissions | whappMessages.go:99-148 | after registration, every relay emitted is of this message, the message's own last, no two of the same kind (quoted or not), and there are relays only when the message is new and the chat could be joined |
| MessageProperties.Emissions | whappMessages.go:83-148 | every relay a message emits is of that message, its own relay comes last, at most one relay of each kind (quoted or not), and there are relays only if the message is fresh (the JOINs it emits are stated by `JoinEmissions`) |
| MessageProperties.ProceedJoins | whappMessages.go:99-103 | after registration, the only JOIN emitted is that of the message's chat, first, and exactly when it is an unjoined group and joining succeeds |
| MessageProperties.JoinEmissions | whappMessages.go:89-103 | a message emits at most one JOIN: that of its own chat, first, and exactly when the chat, registered or new, is an unjoined group and joining succeeds |
| MessageProperties.EndToEndIgnored | whappMessages.go:84-87 | an end-to-end notification changes nothing at all |
| MessageProperties.RelayFailures | whappMessages.go:139-148 | a refused quoted relay stops the message before its own relay and changes nothing; a refused main relay returns its error after the quoted relay, if any, and relays nothing else |
| MessageProperties.RelayedInOrder | whappMessages.go:122-148 | with media and relays accepted, the quoted message is relayed before the message, both with the right sender, target and bodies |
| MessageProperties.RelayMessageShape | whappMessages.go:122-148 | the relay step appends the quoted relay, if any, then the main relay; only media and relays change |
| MessageProperties.NilSenderCrashes | whappMessages.go:122 | a fresh message without a sender crashes after being recorded and relays nothing |
| MessageProperties.MediaFailureStops | whappMessages.go:135-137 | a failed download or store returns its error before anything is relayed |
| MessageProperties.AtMostOnce | whappMessages.go:105-148 | one message preserves two invariants: every relay comes from a recorded message, and no message is relayed twice, neither itself nor the message it quotes |
| MessageProperties.NeverRelayedTwice | whappMessages.go:105-148 | over any sequence of deliveries, no message is relayed twice, neither itself nor the message it quotes |
| NotificationProperties.NotifyOneWrites | whappMessages.go:184-237 | with the write accepted, one recipient writes its line, if any, and clears `Joined` exactly when the local user left or was removed |
| NotificationProperties.FindNameIgnoresJoined | whappMessages.go:160-171 | name resolution does not depend on which chats are joined |
| NotificationProperties.LinesIgnoreJoined | whappMessages.go:184-192 | the remaining lines do not depend on `Joined` flags or on earlier output |
| NotificationProperties.NotifyAllWrites | whappMessages.go:184-238 | with every write accepted, the loop succeeds and writes each recipient's line, in recipient order, at the notification's time |
| NotificationProperties.NotifyAllUnjoins | whappMessages.go:235-237 | with every write accepted, `Joined` is cleared exactly when the local user is a recipient of a leave or remove |
| NotificationProperties.OnlyLeaveOrRemoveUnjoin | whappMessages.go:235-237 | no subtype except leave or remove touches `Joined`, even when a write fails |
| NotificationProperties.SilentNotifyAll | whappMessages.go:193-233 | if no recipient has a line and the subtype is not leave or remove, nothing changes |
| NotificationProperties.UnknownTypeRefused | whappMessages.go:154-155 | a notification type other than gp2 and call_log is refused with the error naming it and changes nothing |
| NotificationProperties.NoRecipientsSilent | whappMessages.go:156-157 | a notification without recipients changes nothing, whatever its subtype |
| NotificationProperties.UnknownSubtypeSilent | whappMessages.go:193-233 | `create` and unknown subtypes write nothing, change nothing and are not errors |
| NotificationProperties.NoSelfJoin | whappMessages.go:197-203 | the local user being added or invited writes no JOIN |
| NotificationProperties.JoinedClearedExactly | whappMessages.go:151-241 | with every write accepted, only the chat's `Joined` flag changes, and it is cleared exactly when the local user is a recipient of a leave or remove |
| NotificationProperties.KickLine | whappMessages.go:215-219 | removing another member writes exactly `:<author> KICK <channel> <member>` at the notification's time |
| NotificationProperties.SelfPartLine | whappMessages.go:209-213 | the local user leaving writes `:<nick> PART <channel>` and the chat is no longer joined |
| BridgeConnection.Connection.FindName | whappMessages.go:160-171 | the loop over the participants returns what `WhappMessages.FindName` gives |
| BridgeConnection.Connection.NameOf | whappMessages.go:177-191 | the author or recipient name is the client's nick for the local user, otherwise `findName` |
| BridgeConnection.Connection.DownloadAndStoreMedia | whappMessages.go:52-81 | updates the media store as `WhappMessages.DownloadAndStoreMedia` says and changes nothing else |
| BridgeConnection.Connection.HandleNotification | whappMessages.go:151-182 | updates the connection as `WhappMessages.HandleNotification` says |
| BridgeConnection.Connection.NotifyAll | whappMessages.go:184-240 | the recipient loop updates the connection as `WhappMessages.NotifyAll` says |
| BridgeConnection.Connection.NotifyOne | whappMessages.go:185-237 | one loop pass updates the connection as `WhappMessages.NotifyOne` says |
| BridgeConnection.Connection.WriteNotificationLine | whappMessages.go:193-233 | the subtype switch writes exactly the line `WhappMessages.NotificationLine` gives, if any |
| BridgeConnection.Connection.HandleMessage | whappMessages.go:83-97 | updates the connection as `WhappMessages.HandleMessage` says |
| BridgeConnection.Connection.Proceed | whappMessages.go:97-120 | joining, deduplication, recording and hand-off update the connection as `WhappMessages.Proceed` says |
| BridgeConnection.Connection.RelayMessage | whappMessages.go:122-148 | the relay step updates the connection as `WhappMessages.RelayMessage` says |

## Left out

- Goroutines and channels are not modelled:
  - the socket-closing goroutine and the cancellation of the context;
  - the `receiveCh` channel, whose capacity of 10 is not modelled: it is the unbounded `queue`, and a full queue blocking the reader is not captured;
  - `passCh` and `sync.Once`, modelled only as the `passReady` flag;
  - the `nick` event emitter and the channel accessors (`ReceiveChannel`, `NickSetChannel`, `PassSetChannel`, `StopChannel`).
- The IRC decoder (`irc.Decode`) is left out: each read is given already decoded, as a `ReadEvent`.
- The IRC line grammar and the message's `Trailing()` are left out for the same reason.
- Logging, including `util.LogMessage` in `PrivateMessage`, is left out because it has no effect on the state.
- Time formatting (`time.UTC().Format`) and `time.Now()` are left out. Time stamps are passed in as already formatted text.
- IrcConnection.Connection.WriteListNow: takes one `now` for all lines, while the source reads the clock once per line.
- The capabilities package is not part of this model. `Capabilities` models it as a list of tokens without repeats, in the order they were first added. This is the order assumed for `List`.
- The socket is modelled as the list of lines written plus a count of the writes it still accepts. Partial writes and write errors that do not stop later writes are not modelled.
- An index out of range in the reader loop is modelled as the loop stopping with `panicked` set. The crash of the whole process is left out.
- Helpers outside the core are left out and given as function-valued parameters (`WhappMessages.Collaborators`):
  - `SafeName` and `convertChat`'s identifier;
  - `FormatBody` and `FormatCaption`;
  - `maps.ByProvider` with the configured provider;
  - `GetExtensionByMimeOrBytes` and the URL of a stored file;
  - `msg.Time()` and `formatPrivateMessage`.
- Outside services are left out and given as their answers (`WhappMessages.Replies`): the participant fetch, `joinChat`, `DownloadMedia`, `fs.AddBlob` and the relay handler `fn`. A successful `joinChat` is recorded as a `JoinedChat` emission; the lines it writes are not modelled.
- Each accepted relay is recorded in `emitted` rather than being delivered to the handler. An accepted relay is therefore one the handler returned no error for.
- `saveDatabaseEntry` runs in its own goroutine; only the number of saves started is modelled (`saves`).
- The registry entry's `Chat` is shared through a pointer in the source (`handleWhappNotification` takes the `ChatListItem` itself by value), while the model keeps chats as values in the registry map. Aliasing between registry entries is therefore not captured. Changes to `Joined` and to the seen IDs are written back to the entry.
- The dereference of a nil `msg.Sender` is modelled as the outcome `Crashed`, after the message has been recorded.
- WhappMessages.Register: the new registry entry starts not joined and with no message IDs recorded. `convertChat` is not part of this model; only the identifier it derives is a parameter.
- The `url` and `userAgent` constants of `whapp/constants.go` are left out because nothing in the core uses them.
- NotificationProperties.NotifyAllWrites: requires that the socket accept every write. The failing case is covered only by `WhappMessages.NotifyAll`'s own contract, which bounds what changes.
- NotificationProperties.NotifyAllUnjoins: requires that the socket accept every write, for the same reason.
- NotificationProperties.JoinedClearedExactly: requires that the socket accept every write, for the same reason.
