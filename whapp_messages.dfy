/** The event-translation bridge of whappMessages.go, as functions over the
    state of one bridge connection: the chat registry, the per-chat last
    timestamps, the media store, what has been handed to the relay handler
    and the IRC session the notifications are written to. The class
    BridgeConnection.Connection updates the same state in place and is proved to agree
    with these functions. */
module WhappMessages {
  import opened GoStrings
  import opened Whapp
  import IrcSession

  /** A registry entry: the chat's IRC name (channel or nick), whether it is
      a group, whether the client has joined it, its participants and the
      IDs of the messages already handled in it. */
  datatype Chat = Chat(
    identifier: string,
    isGroup: bool,
    joined: bool,
    participants: seq<Participant>,
    seen: set<string>)

  /** A file in the content-addressed blob store. */
  datatype Blob = Blob(extension: string, bytes: Bytes)

  /** The blob store, keyed by media hash, and how many downloads the bridge
      has asked the messaging service for. */
  datatype Media = Media(blobs: map<string, Blob>, downloads: nat)

  /** What the bridge hands to the relay handler for one message: the chat
      and message it comes from, sender, target, body, and whether it is the
      quoted message shown before the message itself. */
  datatype Relay = Relay(chat: Id, origin: string, from: string, to: string, body: string, quoted: bool)

  /** What the bridge has done towards the IRC side besides writing lines:
      joined a chat (`joinChat`) or relayed a message. */
  datatype Emission = JoinedChat(chat: Id) | Relayed(relay: Relay)

  /** The state of one bridge connection. `saves` counts the persistence
      tasks started; `irc` is the session notifications are written to. */
  datatype Bridge = Bridge(
    me: Me,
    chats: map<Id, Chat>,
    timestamps: map<Id, int>,
    saves: nat,
    media: Media,
    emitted: seq<Emission>,
    irc: IrcSession.Session)

  /** How handling one event ended: normally, with an error returned to the
      caller, or with a run-time panic. */
  datatype Outcome = Handled | Failed(error: string) | Crashed(reason: string)

  /** What the outside services answer while one message is handled: the
      participant fetch, `joinChat`, the media download, `AddBlob`, and the
      relay handler for the quoted and the main relay. */
  datatype Replies = Replies(
    participants: Result<seq<Participant>>,
    joinError: Option<string>,
    download: Result<Bytes>,
    storeError: Option<string>,
    quotedRelayError: Option<string>,
    relayError: Option<string>)

  /** The pure helpers the bridge calls whose definitions are not part of
      this model: `SafeName`, the identifier `convertChat` derives,
      `FormatBody`, `FormatCaption`, `maps.ByProvider` for the configured
      provider, `GetExtensionByMimeOrBytes`, the URL of a stored file, the
      formatted time of a message timestamp (`msg.Time()` as `Write` renders
      it) and `formatPrivateMessage`. */
  datatype Collaborators = Collaborators(
    safeName: Participant -> string,
    identifier: (ChatRef, seq<Participant>) -> string,
    formatBody: (Message, seq<Participant>, string) -> string,
    formatCaption: (Message, seq<Participant>, string) -> string,
    mapLink: Location -> string,
    extensionOf: (string, Bytes) -> string,
    fileUrl: (string, Blob) -> string,
    stamp: int -> string,
    privmsg: IrcSession.PrivmsgFormat)

  const WriteError := "write to the IRC socket failed"
  const NilSender := "nil pointer dereference of the message sender"
  const FilePlaceholder := "--file--"
  const MissedCall := "-- missed call --"

  /** `formatContact`. */
  function FormatContact(contact: Contact): (p: Participant)
    ensures p.id == contact.id && p.contact == contact
  {
    Participant(contact.id, contact)
  }

  /** The part of an MMS body that names the file. */
  function MediaRef(msg: Message, blobs: map<string, Blob>, c: Collaborators): string
  {
    if msg.mediaHash in blobs then c.fileUrl(msg.mediaHash, blobs[msg.mediaHash]) else FilePlaceholder
  }

  /** `getMessageBody`: a location wins over media, media over text. */
  function MessageBody(msg: Message, ps: seq<Participant>, me: Me, blobs: map<string, Blob>, c: Collaborators): string
  {
    if msg.location.Some? then c.mapLink(msg.location.value)
    else if msg.isMms then
      MediaRef(msg, blobs, c) + (if msg.caption != "" then " " + c.formatCaption(msg, ps, me.pushname) else "")
    else c.formatBody(msg, ps, me.pushname)
  }

  /** The extension a downloaded file is stored under: the one the MIME type
      or the bytes give, else the file name's extension without its dot. */
  function StoredExtension(msg: Message, bytes: Bytes, c: Collaborators): string
  {
    var ext := c.extensionOf(msg.mimeType, bytes);
    if ext == "" then BareExt(msg.mediaFilename) else ext
  }

  /** `downloadAndStoreMedia`: for media not yet in the store, download it
      and store it under its hash. Returns the error, if any. */
  function DownloadAndStoreMedia(m: Media, msg: Message, download: Result<Bytes>, storeError: Option<string>, c: Collaborators): (r: (Media, Option<string>))
  {
    if !msg.isMms then (m, None)
    else if msg.mediaHash in m.blobs then (m, None)
    else
      var m1 := m.(downloads := m.downloads + 1);
      if download.Err? then (m1, Some(download.error))
      else if storeError.Some? then (m1, storeError)
      else
        var blob := Blob(StoredExtension(msg, download.value, c), download.value);
        (m1.(blobs := m1.blobs[msg.mediaHash := blob]), None)
  }

  /** `findName`: the participant's safe name, else the identifier of a
      registered direct chat with that ID, else the raw user part. */
  function FindName(ps: seq<Participant>, chats: map<Id, Chat>, id: Id, c: Collaborators): (name: string)
    ensures forall i :: 0 <= i < |ps| && ps[i].id == id && (forall j :: 0 <= j < i ==> ps[j].id != id) ==>
      name == c.safeName(ps[i])
    ensures (forall i :: 0 <= i < |ps| ==> ps[i].id != id) ==>
      name == if id in chats && !chats[id].isGroup then chats[id].identifier else id.user
    decreases |ps|
  {
    if |ps| == 0 then
      if id in chats && !chats[id].isGroup then chats[id].identifier else id.user
    else if ps[0].id == id then c.safeName(ps[0])
    else
      var name := FindName(ps[1..], chats, id, c);
      assert forall i :: 1 <= i < |ps| ==> ps[i] == ps[1..][i - 1];
      name
  }

  /** The line a notification writes for one recipient, if any. */
  function NotificationLine(subtype: string, author: string, recipient: string, ident: string, self: bool, fmt: IrcSession.PrivmsgFormat): (line: Option<string>)
    ensures line.Some? <==>
      ((subtype == "add" || subtype == "invite") && !self) || subtype == "leave" || subtype == "remove" || subtype == "miss"
  {
    if subtype == "add" || subtype == "invite" then
      if self then None else Some(":" + recipient + " JOIN " + ident)
    else if subtype == "leave" then Some(":" + recipient + " PART " + ident)
    else if subtype == "remove" then Some(":" + author + " KICK " + ident + " " + recipient)
    else if subtype == "miss" then Some(fmt(author, ident, MissedCall))
    else None
  }

  /** The name a notification shows for `id`: the client's nick for the
      local user, otherwise `findName`. */
  function NameOf(s: Bridge, chatId: Id, id: Id, c: Collaborators): string
    requires chatId in s.chats
  {
    if id == s.me.selfId then s.irc.nick else FindName(s.chats[chatId].participants, s.chats, id, c)
  }

  /** The acting user of a notification: the sender if there is one,
      otherwise the notification's `From`. */
  function Actor(msg: Message): Id
  {
    if msg.sender.Some? then msg.sender.value.id else msg.from
  }

  /** Two registries that differ at most in which chats are joined. */
  predicate SameButJoined(a: map<Id, Chat>, b: map<Id, Chat>)
  {
    a.Keys == b.Keys && forall k :: k in a ==> b[k] == a[k].(joined := b[k].joined)
  }

  /** Two sessions that differ at most in what has been written. */
  predicate WroteMore(a: IrcSession.Session, b: IrcSession.Session)
  {
    a.out <= b.out && b == a.(out := b.out, writable := b.writable)
  }

  function Unjoin(s: Bridge, chatId: Id): (r: Bridge)
    requires chatId in s.chats
  {
    s.(chats := s.chats[chatId := s.chats[chatId].(joined := false)])
  }

  /** The body of the notification loop for one recipient. */
  function NotifyOne(s: Bridge, chatId: Id, msg: Message, author: string, rid: Id, c: Collaborators): (r: (Bridge, Outcome))
    requires chatId in s.chats
    ensures r.0 == s.(irc := r.0.irc, chats := r.0.chats)
    ensures r.0.chats == s.chats || r.0.chats == Unjoin(s, chatId).chats
    ensures SameButJoined(s.chats, r.0.chats) && WroteMore(s.irc, r.0.irc)
    ensures r.1 == Handled || r.1 == Failed(WriteError)
  {
    var self := rid == s.me.selfId;
    var line := NotificationLine(msg.subtype, author, NameOf(s, chatId, rid, c), s.chats[chatId].identifier, self, c.privmsg);
    var (irc, ok) := if line.Some? then IrcSession.Write(s.irc, c.stamp(msg.timestamp), line.value) else (s.irc, true);
    assert WroteMore(s.irc, irc);
    if !ok then (s.(irc := irc), Failed(WriteError))
    else if self && (msg.subtype == "leave" || msg.subtype == "remove") then
      UnjoinOnlyJoined(s.(irc := irc), chatId);
      (Unjoin(s.(irc := irc), chatId), Handled)
    else (s.(irc := irc), Handled)
  }

  lemma UnjoinOnlyJoined(s: Bridge, chatId: Id)
    requires chatId in s.chats
    ensures SameButJoined(s.chats, Unjoin(s, chatId).chats)
  {
  }

  /** The notification loop over the recipients; stops at the first failed
      write. */
  function NotifyAll(s: Bridge, chatId: Id, msg: Message, author: string, rids: seq<Id>, c: Collaborators): (r: (Bridge, Outcome))
    requires chatId in s.chats
    ensures r.0 == s.(irc := r.0.irc, chats := r.0.chats)
    ensures SameButJoined(s.chats, r.0.chats) && WroteMore(s.irc, r.0.irc)
    ensures r.1 == Handled || r.1 == Failed(WriteError)
    decreases |rids|
  {
    if |rids| == 0 then (s, Handled)
    else
      var (s1, o) := NotifyOne(s, chatId, msg, author, rids[0], c);
      if o.Failed? then (s1, o) else NotifyAll(s1, chatId, msg, author, rids[1..], c)
  }

  /** `handleWhappNotification`. */
  function HandleNotification(s: Bridge, chatId: Id, msg: Message, c: Collaborators): (r: (Bridge, Outcome))
    requires chatId in s.chats
    ensures r.0 == s.(irc := r.0.irc, chats := r.0.chats)
    ensures SameButJoined(s.chats, r.0.chats) && WroteMore(s.irc, r.0.irc)
  {
    if msg.typ != "gp2" && msg.typ != "call_log" then
      (s, Failed("no idea what to do with notification type " + msg.typ))
    else if |msg.recipients| == 0 then (s, Handled)
    else NotifyAll(s, chatId, msg, NameOf(s, chatId, Actor(msg), c), msg.recipients, c)
  }

  /** A new registry entry built from the message's chat and its fetched
      participants. */
  function Register(s: Bridge, msg: Message, ps: seq<Participant>, c: Collaborators): (r: Bridge)
  {
    s.(chats := s.chats[msg.chat.id := Chat(c.identifier(msg.chat, ps), msg.chat.isGroup, false, ps, {})])
  }

  /** `joinChat` succeeded: the chat is joined. */
  function JoinChat(s: Bridge, chatId: Id): (r: Bridge)
    requires chatId in s.chats
  {
    s.(chats := s.chats[chatId := s.chats[chatId].(joined := true)], emitted := s.emitted + [JoinedChat(chatId)])
  }

  function RecordId(s: Bridge, chatId: Id, id: string): (r: Bridge)
    requires chatId in s.chats
  {
    s.(chats := s.chats[chatId := s.chats[chatId].(seen := s.chats[chatId].seen + {id})])
  }

  /** Whether a message timestamp moves the chat's last timestamp. */
  predicate IsNewer(timestamps: map<Id, int>, chatId: Id, ts: int)
  {
    chatId !in timestamps || ts > timestamps[chatId]
  }

  /** Stores a newer timestamp and starts a persistence task. */
  function NoteTimestamp(s: Bridge, chatId: Id, ts: int): (r: Bridge)
  {
    if IsNewer(s.timestamps, chatId, ts) then s.(timestamps := s.timestamps[chatId := ts], saves := s.saves + 1)
    else s
  }

  /** A relay of a message itself, as opposed to one of the message it
      quotes. */
  predicate MainRelay(e: Emission)
  {
    e.Relayed? && !e.relay.quoted
  }

  /** What was emitted after `before` are relays from message `origin` of
      chat `chatId` only: a relay of the quoted message, if any, comes
      first and a relay of the message itself, if any, comes last. */
  predicate RelaysOnly(before: seq<Emission>, after: seq<Emission>, chatId: Id, origin: string)
    requires before <= after
  {
    forall i :: |before| <= i < |after| ==>
      after[i].Relayed? && after[i].relay.chat == chatId && after[i].relay.origin == origin
      && (MainRelay(after[i]) ==> i == |after| - 1)
      && (after[i].relay.quoted ==> i == |before|)
  }

  function Emit(s: Bridge, relay: Relay): Bridge
  {
    s.(emitted := s.emitted + [Relayed(relay)])
  }

  /** Who a relayed message is from: the client's nick for one's own
      messages, the sender's safe name otherwise. */
  function From(s: Bridge, msg: Message, c: Collaborators): string
    requires msg.sender.Some?
  {
    if msg.sentByMe then s.irc.nick else c.safeName(FormatContact(msg.sender.value))
  }

  /** Where a relayed message goes: the chat for groups and one's own
      messages, the client's nick otherwise. */
  function To(s: Bridge, chatId: Id, msg: Message): string
    requires chatId in s.chats
  {
    if s.chats[chatId].isGroup || msg.sentByMe then s.chats[chatId].identifier else s.irc.nick
  }

  /** The quoted relay, if the message quotes one, then the message itself. */
  function Relays(s: Bridge, chatId: Id, msg: Message, from: string, to: string, r: Replies, c: Collaborators): (res: (Bridge, Outcome))
    requires chatId in s.chats
    ensures res.0 == s.(emitted := res.0.emitted) && s.emitted <= res.0.emitted
    ensures RelaysOnly(s.emitted, res.0.emitted, chatId, msg.id)
    ensures res.1 == Handled <==> r.relayError.None? && (msg.quoted.None? || r.quotedRelayError.None?)
    ensures res.1 == Handled ==> |res.0.emitted| > 0 && MainRelay(res.0.emitted[|res.0.emitted| - 1])
  {
    var ps := s.chats[chatId].participants;
    if msg.quoted.Some? && r.quotedRelayError.Some? then (s, Failed(r.quotedRelayError.value))
    else
      var s1 := if msg.quoted.Some? then
          Emit(s, Relay(chatId, msg.id, from, to, MessageBody(msg.quoted.value, ps, s.me, s.media.blobs, c), true))
        else s;
      if r.relayError.Some? then (s1, Failed(r.relayError.value))
      else (Emit(s1, Relay(chatId, msg.id, from, to, MessageBody(msg, ps, s.me, s.media.blobs, c), false)), Handled)
  }

  /** The relaying part of message handling: resolve sender and target, fetch
      media, relay. */
  function RelayMessage(s: Bridge, chatId: Id, msg: Message, r: Replies, c: Collaborators): (res: (Bridge, Outcome))
    requires chatId in s.chats
    ensures res.0 == s.(media := res.0.media, emitted := res.0.emitted) && s.emitted <= res.0.emitted
    ensures RelaysOnly(s.emitted, res.0.emitted, chatId, msg.id)
  {
    if msg.sender.None? then (s, Crashed(NilSender))
    else
      var from := From(s, msg, c);
      var to := To(s, chatId, msg);
      var (m, err) := DownloadAndStoreMedia(s.media, msg, r.download, r.storeError, c);
      var s1 := s.(media := m);
      if err.Some? then (s1, Failed(err.value))
      else Relays(s1, chatId, msg, from, to, r, c)
  }

  /** Message handling once the chat is registered: join, deduplicate,
      record, timestamp, then hand off. */
  function Proceed(s: Bridge, msg: Message, r: Replies, c: Collaborators): (res: (Bridge, Outcome))
    requires msg.chat.id in s.chats
    ensures res.0.me == s.me && res.0.chats.Keys == s.chats.Keys && s.emitted <= res.0.emitted
    ensures var chat := s.chats[msg.chat.id];
      chat.isGroup && !chat.joined && r.joinError.Some? ==> res == (s, Failed(r.joinError.value))
    ensures var chat := s.chats[msg.chat.id];
      !(chat.isGroup && !chat.joined && r.joinError.Some?) ==> msg.id in res.0.chats[msg.chat.id].seen
  {
    var chatId := msg.chat.id;
    var chat := s.chats[chatId];
    if chat.isGroup && !chat.joined && r.joinError.Some? then (s, Failed(r.joinError.value))
    else
      var s1 := if chat.isGroup && !chat.joined then JoinChat(s, chatId) else s;
      assert s1.chats.Keys == s.chats.Keys && s.emitted <= s1.emitted && s1.me == s.me;
      if msg.id in s1.chats[chatId].seen then (s1, Handled)
      else
        var s3 := NoteTimestamp(RecordId(s1, chatId, msg.id), chatId, msg.timestamp);
        assert s3.chats.Keys == s.chats.Keys && s3.emitted == s1.emitted && s3.me == s.me;
        assert msg.id in s3.chats[chatId].seen;
        var res := HandOff(s3, chatId, msg, r, c);
        SameButJoinedSeen(s3.chats, res.0.chats, chatId);
        res
  }

  /** Entries that differ at most in `Joined` have the same seen IDs. */
  lemma SameButJoinedSeen(a: map<Id, Chat>, b: map<Id, Chat>, k: Id)
    requires SameButJoined(a, b) && k in a
    ensures k in b && b[k].seen == a[k].seen
  {
  }

  /** The last step of message handling: messages sent from the web client
      stop here, notifications go to `handleWhappNotification`, the rest is
      relayed. Only the session, the `Joined` flags, the media store and
      the emitted relays can change. */
  function HandOff(s: Bridge, chatId: Id, msg: Message, r: Replies, c: Collaborators): (res: (Bridge, Outcome))
    requires chatId in s.chats
    ensures res.0 == s.(irc := res.0.irc, chats := res.0.chats, media := res.0.media, emitted := res.0.emitted)
    ensures SameButJoined(s.chats, res.0.chats)
    ensures s.emitted <= res.0.emitted && RelaysOnly(s.emitted, res.0.emitted, chatId, msg.id)
    ensures msg.sentByMeFromWeb ==> res == (s, Handled)
  {
    if msg.sentByMeFromWeb then (s, Handled)
    else if msg.isNotification then HandleNotification(s, chatId, msg, c)
    else RelayMessage(s, chatId, msg, r, c)
  }

  /** `handleWhappMessage`. */
  function HandleMessage(s: Bridge, msg: Message, r: Replies, c: Collaborators): (res: (Bridge, Outcome))
    ensures res.0.me == s.me && s.chats.Keys <= res.0.chats.Keys && s.emitted <= res.0.emitted
    ensures res.1 == Handled && msg.typ != "e2e_notification" ==>
      msg.chat.id in res.0.chats && msg.id in res.0.chats[msg.chat.id].seen
  {
    if msg.typ == "e2e_notification" then (s, Handled)
    else if msg.chat.id in s.chats then Proceed(s, msg, r, c)
    else if r.participants.Err? then (s, Failed(r.participants.error))
    else Proceed(Register(s, msg, r.participants.value, c), msg, r, c)
  }
}
