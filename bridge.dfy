/** The bridge side of `main.Connection`: the chat registry, the timestamp
    map, the media store and the IRC connection, updated in place by
    `handleWhappMessage` and `handleWhappNotification`. Every method is
    proved to leave the object in the state the function of the same name in
    WhappMessages computes, so the properties proved about those functions
    hold of the object. */
module BridgeConnection {
  import opened Whapp
  import opened WhappMessages
  import IrcConnection
  import IrcSession

  class Connection {
    const irc: IrcConnection.Connection
    var me: Me
    var chats: map<Id, Chat>
    var timestamps: map<Id, int>
    var saves: nat
    var media: Media
    var emitted: seq<Emission>

    /** The object's state, with its IRC connection's, as a value. */
    function Snapshot(): Bridge
      reads this, irc
    {
      Bridge(me, chats, timestamps, saves, media, emitted, irc.Snapshot())
    }

    /** A bridge for the local user `me` over the IRC connection `irc`, with
        nothing registered, stored or relayed yet. */
    constructor (irc: IrcConnection.Connection, me: Me)
      ensures this.irc == irc
      ensures Snapshot() == Bridge(me, map[], map[], 0, Media(map[], 0), [], irc.Snapshot())
    {
      this.irc := irc;
      this.me := me;
      chats, timestamps, saves := map[], map[], 0;
      media := Media(map[], 0);
      emitted := [];
    }

    /** `findName`: a search through the participants, then the registry. */
    method FindName(ps: seq<Participant>, id: Id, c: Collaborators) returns (name: string)
      ensures name == WhappMessages.FindName(ps, chats, id, c)
    {
      var i := 0;
      while i < |ps|
        invariant 0 <= i <= |ps|
        invariant WhappMessages.FindName(ps, chats, id, c) == WhappMessages.FindName(ps[i..], chats, id, c)
      {
        assert ps[i..][1..] == ps[i + 1..];
        if ps[i].id == id {
          return c.safeName(ps[i]);
        }
        i := i + 1;
      }
      if id in chats && !chats[id].isGroup {
        return chats[id].identifier;
      }
      return id.user;
    }

    /** The IRC name of `id` in chat `chatId`: the client's nick for the
        local user, `findName` otherwise. */
    method NameOf(chatId: Id, id: Id, c: Collaborators) returns (name: string)
      requires chatId in chats
      ensures name == WhappMessages.NameOf(Snapshot(), chatId, id, c)
    {
      if id == me.selfId {
        name := irc.Nick();
      } else {
        name := FindName(chats[chatId].participants, id, c);
      }
    }

    /** `downloadAndStoreMedia`. */
    method DownloadAndStoreMedia(msg: Message, download: Result<Bytes>, storeError: Option<string>, c: Collaborators)
      returns (err: Option<string>)
      modifies this
      ensures (media, err) == WhappMessages.DownloadAndStoreMedia(old(media), msg, download, storeError, c)
      ensures Snapshot() == old(Snapshot()).(media := media)
    {
      if !msg.isMms || msg.mediaHash in media.blobs {
        return None;
      }
      media := media.(downloads := media.downloads + 1);
      if download.Err? {
        return Some(download.error);
      }
      var ext := c.extensionOf(msg.mimeType, download.value);
      if ext == "" {
        ext := GoStrings.BareExt(msg.mediaFilename);
      }
      if storeError.Some? {
        return storeError;
      }
      media := media.(blobs := media.blobs[msg.mediaHash := Blob(ext, download.value)]);
      return None;
    }

    /** `handleWhappNotification`. */
    method HandleNotification(chatId: Id, msg: Message, c: Collaborators) returns (o: Outcome)
      requires chatId in chats
      modifies this, irc
      ensures (Snapshot(), o) == WhappMessages.HandleNotification(old(Snapshot()), chatId, msg, c)
    {
      if msg.typ != "gp2" && msg.typ != "call_log" {
        return Failed("no idea what to do with notification type " + msg.typ);
      }
      if |msg.recipients| == 0 {
        return Handled;
      }
      var author := NameOf(chatId, Actor(msg), c);
      o := NotifyAll(chatId, msg, author, c);
    }

    /** The loop of `handleWhappNotification`: one line per recipient,
        written as it is computed; the first failed write ends the loop. */
    method NotifyAll(chatId: Id, msg: Message, author: string, c: Collaborators) returns (o: Outcome)
      requires chatId in chats
      modifies this, irc
      ensures (Snapshot(), o) == WhappMessages.NotifyAll(old(Snapshot()), chatId, msg, author, msg.recipients, c)
    {
      var rids := msg.recipients;
      var i := 0;
      while i < |rids|
        invariant 0 <= i <= |rids|
        invariant chatId in chats
        invariant WhappMessages.NotifyAll(old(Snapshot()), chatId, msg, author, rids, c)
          == WhappMessages.NotifyAll(Snapshot(), chatId, msg, author, rids[i..], c)
      {
        assert rids[i..][1..] == rids[i + 1..];
        o := NotifyOne(chatId, msg, author, rids[i], c);
        if o.Failed? {
          return;
        }
        i := i + 1;
      }
      return Handled;
    }

    /** The body of the notification loop: the line the subtype calls for,
        then `Joined` cleared when the local user left or was removed. */
    method NotifyOne(chatId: Id, msg: Message, author: string, rid: Id, c: Collaborators) returns (o: Outcome)
      requires chatId in chats
      modifies this, irc
      ensures chatId in chats
      ensures (Snapshot(), o) == WhappMessages.NotifyOne(old(Snapshot()), chatId, msg, author, rid, c)
    {
      var self := rid == me.selfId;
      var recipient := NameOf(chatId, rid, c);
      var ok := WriteNotificationLine(msg.subtype, author, recipient, chats[chatId].identifier, self, c.stamp(msg.timestamp), c.privmsg);
      if !ok {
        return Failed(WriteError);
      }
      if self && (msg.subtype == "leave" || msg.subtype == "remove") {
        chats := chats[chatId := chats[chatId].(joined := false)];
      }
      return Handled;
    }

    /** The `switch` on the notification subtype: writes the line the subtype
        calls for, if any. */
    method WriteNotificationLine(subtype: string, author: string, recipient: string, ident: string, self: bool,
                                 stamp: string, fmt: IrcSession.PrivmsgFormat) returns (ok: bool)
      modifies irc
      ensures var line := NotificationLine(subtype, author, recipient, ident, self, fmt);
        (irc.Snapshot(), ok) == if line.Some? then IrcSession.Write(old(irc.Snapshot()), stamp, line.value) else (old(irc.Snapshot()), true)
    {
      ok := true;
      if subtype == "add" || subtype == "invite" {
        if !self {
          ok := irc.Write(stamp, ":" + recipient + " JOIN " + ident);
        }
      } else if subtype == "leave" {
        ok := irc.Write(stamp, ":" + recipient + " PART " + ident);
      } else if subtype == "remove" {
        ok := irc.Write(stamp, ":" + author + " KICK " + ident + " " + recipient);
      } else if subtype == "miss" {
        ok := irc.PrivateMessage(stamp, author, ident, MissedCall, fmt);
      }
    }

    /** `handleWhappMessage`. The relay handler is not called: each relay it
        accepts is appended to `emitted`. */
    method HandleMessage(msg: Message, r: Replies, c: Collaborators) returns (o: Outcome)
      modifies this, irc
      ensures (Snapshot(), o) == WhappMessages.HandleMessage(old(Snapshot()), msg, r, c)
    {
      if msg.typ == "e2e_notification" {
        return Handled;
      }
      var id := msg.chat.id;
      if id !in chats {
        if r.participants.Err? {
          return Failed(r.participants.error);
        }
        var ps := r.participants.value;
        chats := chats[id := Chat(c.identifier(msg.chat, ps), msg.chat.isGroup, false, ps, {})];
      }
      ghost var registered := Snapshot();
      assert WhappMessages.HandleMessage(old(Snapshot()), msg, r, c) == WhappMessages.Proceed(registered, msg, r, c);
      o := Proceed(msg, r, c);
    }

    /** Message handling once the chat is registered. */
    method Proceed(msg: Message, r: Replies, c: Collaborators) returns (o: Outcome)
      requires msg.chat.id in chats
      modifies this, irc
      ensures (Snapshot(), o) == WhappMessages.Proceed(old(Snapshot()), msg, r, c)
    {
      var id := msg.chat.id;
      var chat := chats[id];
      if chat.isGroup && !chat.joined {
        if r.joinError.Some? {
          return Failed(r.joinError.value);
        }
        chats := chats[id := chat.(joined := true)];
        emitted := emitted + [JoinedChat(id)];
      }
      if msg.id in chats[id].seen {
        return Handled;
      }
      chats := chats[id := chats[id].(seen := chats[id].seen + {msg.id})];
      if IsNewer(timestamps, id, msg.timestamp) {
        timestamps := timestamps[id := msg.timestamp];
        saves := saves + 1;
      }
      ghost var recorded := Snapshot();
      assert WhappMessages.Proceed(old(Snapshot()), msg, r, c) == HandOff(recorded, id, msg, r, c);
      if msg.sentByMeFromWeb {
        return Handled;
      } else if msg.isNotification {
        o := HandleNotification(id, msg, c);
        return;
      }
      o := RelayMessage(id, msg, r, c);
    }

    /** Sender and target, media, then the relays. */
    method RelayMessage(chatId: Id, msg: Message, r: Replies, c: Collaborators) returns (o: Outcome)
      requires chatId in chats
      modifies this
      ensures (Snapshot(), o) == WhappMessages.RelayMessage(old(Snapshot()), chatId, msg, r, c)
    {
      if msg.sender.None? {
        return Crashed(NilSender);
      }
      var from := c.safeName(FormatContact(msg.sender.value));
      if msg.sentByMe {
        from := irc.Nick();
      }
      var to := irc.Nick();
      if chats[chatId].isGroup || msg.sentByMe {
        to := chats[chatId].identifier;
      }
      var err := DownloadAndStoreMedia(msg, r.download, r.storeError, c);
      if err.Some? {
        return Failed(err.value);
      }
      var ps := chats[chatId].participants;
      if msg.quoted.Some? {
        if r.quotedRelayError.Some? {
          return Failed(r.quotedRelayError.value);
        }
        var body := MessageBody(msg.quoted.value, ps, me, media.blobs, c);
        emitted := emitted + [Relayed(Relay(chatId, msg.id, from, to, body, true))];
      }
      if r.relayError.Some? {
        return Failed(r.relayError.value);
      }
      var body := MessageBody(msg, ps, me, media.blobs, c);
      emitted := emitted + [Relayed(Relay(chatId, msg.id, from, to, body, false))];
      return Handled;
    }
  }
}
