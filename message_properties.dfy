/** What `handleWhappMessage` promises: which messages register a chat,
    which are recorded as handled, when the chat's last timestamp moves and
    a save starts, that a redelivered message relays nothing, and that over
    any sequence of deliveries every message is relayed at most once. */
module MessageProperties {
  import opened Whapp
  import opened WhappMessages

  /** The registry entry of the message's chat once registration has run:
      the existing one, a new one built from the fetched participants, or
      none when the fetch failed. */
  function Entry(s: Bridge, msg: Message, r: Replies, c: Collaborators): Option<Chat>
  {
    if msg.chat.id in s.chats then Some(s.chats[msg.chat.id])
    else if r.participants.Ok? then
      Some(Chat(c.identifier(msg.chat, r.participants.value), msg.chat.isGroup, false, r.participants.value, {}))
    else None
  }

  /** The chat still has to be joined and joining it fails. */
  predicate JoinRefused(chat: Chat, r: Replies)
  {
    chat.isGroup && !chat.joined && r.joinError.Some?
  }

  /** The message gets past registration, joining and deduplication: it is
      handled for the first time. */
  predicate Fresh(s: Bridge, msg: Message, r: Replies, c: Collaborators)
  {
    var e := Entry(s, msg, r, c);
    msg.typ != "e2e_notification" && e.Some? && !JoinRefused(e.value, r) && msg.id !in e.value.seen
  }

  /** The state a fresh message is handed off in: registered, joined,
      recorded as handled and its timestamp noted. */
  function Recorded(s: Bridge, msg: Message, r: Replies, c: Collaborators): (s1: Bridge)
    requires Fresh(s, msg, r, c)
    ensures var e := Entry(s, msg, r, c).value; var id := msg.chat.id;
      && id in s1.chats
      && s1.chats[id] == e.(joined := e.joined || e.isGroup, seen := e.seen + {msg.id})
      && s1.chats[id].identifier == e.identifier && s1.chats[id].isGroup == e.isGroup
      && s1.chats[id].participants == e.participants
      && s1.me == s.me && s1.irc == s.irc && s1.media == s.media
      && s1.emitted == s.emitted + (if e.isGroup && !e.joined then [JoinedChat(id)] else [])
      && s1.timestamps == (if IsNewer(s.timestamps, id, msg.timestamp) then s.timestamps[id := msg.timestamp] else s.timestamps)
      && s1.saves == s.saves + (if IsNewer(s.timestamps, id, msg.timestamp) then 1 else 0)
  {
    var id := msg.chat.id;
    var e := Entry(s, msg, r, c).value;
    var s0 := s.(chats := s.chats[id := e]);
    var s1 := if e.isGroup && !e.joined then JoinChat(s0, id) else s0;
    NoteTimestamp(RecordId(s1, id, msg.id), id, msg.timestamp)
  }

  /** A fresh message reaches the hand-off in the `Recorded` state. */
  lemma FreshHandOff(s: Bridge, msg: Message, r: Replies, c: Collaborators)
    requires Fresh(s, msg, r, c)
    ensures HandleMessage(s, msg, r, c) == HandOff(Recorded(s, msg, r, c), msg.chat.id, msg, r, c)
  {
    var id := msg.chat.id;
    if id in s.chats {
      assert s.(chats := s.chats[id := s.chats[id]]) == s;
    }
  }

  /** The registry after `Proceed`: the same chats, the same entries but
      for `Joined`, and the message's ID recorded unless joining failed. */
  lemma ProceedFrame(s: Bridge, msg: Message, r: Replies, c: Collaborators)
    requires msg.chat.id in s.chats
    ensures var s1 := Proceed(s, msg, r, c).0; var id := msg.chat.id; var chat := s.chats[id];
      && s1.chats.Keys == s.chats.Keys
      && (forall k :: k in s.chats && k != id ==> s1.chats[k] == s.chats[k].(joined := s1.chats[k].joined))
      && s1.chats[id] == chat.(joined := s1.chats[id].joined, seen := s1.chats[id].seen)
      && s1.chats[id].seen == chat.seen + (if JoinRefused(chat, r) then {} else {msg.id})
  {
    var id := msg.chat.id;
    var chat := s.chats[id];
    if !JoinRefused(chat, r) {
      var s1 := if chat.isGroup && !chat.joined then JoinChat(s, id) else s;
      if msg.id !in s1.chats[id].seen {
        ProceedNew(s, msg, r, c);
      }
    }
  }

  /** `Proceed` on a message new to a chat that can be joined. */
  lemma ProceedNew(s: Bridge, msg: Message, r: Replies, c: Collaborators)
    requires msg.chat.id in s.chats && !JoinRefused(s.chats[msg.chat.id], r) && msg.id !in s.chats[msg.chat.id].seen
    ensures var s1 := Proceed(s, msg, r, c).0; var id := msg.chat.id; var chat := s.chats[id];
      && s1.chats.Keys == s.chats.Keys
      && (forall k :: k in s.chats && k != id ==> s1.chats[k] == s.chats[k].(joined := s1.chats[k].joined))
      && s1.chats[id] == chat.(joined := s1.chats[id].joined, seen := chat.seen + {msg.id})
  {
    var id := msg.chat.id;
    var chat := s.chats[id];
    var s1 := if chat.isGroup && !chat.joined then JoinChat(s, id) else s;
    var s3 := NoteTimestamp(RecordId(s1, id, msg.id), id, msg.timestamp);
    assert s3.chats == s.chats[id := chat.(joined := chat.joined || chat.isGroup, seen := chat.seen + {msg.id})];
    assert Proceed(s, msg, r, c) == HandOff(s3, id, msg, r, c);
  }

  /** The registry after a message: the chat is added exactly when it was
      missing and its participants could be fetched (end-to-end
      notifications are ignored outright); no other entry changes but for
      `Joined`; the message's ID is recorded unless joining failed. */
  lemma Registration(s: Bridge, msg: Message, r: Replies, c: Collaborators)
    ensures var s1 := HandleMessage(s, msg, r, c).0; var id := msg.chat.id; var e := Entry(s, msg, r, c);
      && s1.chats.Keys == s.chats.Keys + (if msg.typ != "e2e_notification" && e.Some? then {id} else {})
      && (forall k :: k in s.chats && k != id ==> s1.chats[k] == s.chats[k].(joined := s1.chats[k].joined))
      && (id in s1.chats ==>
            && e.Some?
            && s1.chats[id] == e.value.(joined := s1.chats[id].joined, seen := s1.chats[id].seen)
            && s1.chats[id].seen == e.value.seen
                 + (if msg.typ != "e2e_notification" && !JoinRefused(e.value, r) then {msg.id} else {}))
  {
    if msg.typ != "e2e_notification" {
      if msg.chat.id in s.chats {
        ProceedFrame(s, msg, r, c);
      } else if r.participants.Ok? {
        ProceedFrame(Register(s, msg, r.participants.value, c), msg, r, c);
      }
    }
  }

  /** A message whose ID its chat has already seen changes nothing, except
      that a group the client is no longer in is joined again; a failed
      rejoin stops it with the join error. */
  lemma Redelivery(s: Bridge, msg: Message, r: Replies, c: Collaborators)
    requires msg.chat.id in s.chats && msg.id in s.chats[msg.chat.id].seen
    ensures var chat := s.chats[msg.chat.id];
      HandleMessage(s, msg, r, c) ==
        if msg.typ == "e2e_notification" then (s, Handled)
        else if JoinRefused(chat, r) then (s, Failed(r.joinError.value))
        else if chat.isGroup && !chat.joined then (JoinChat(s, msg.chat.id), Handled)
        else (s, Handled)
  {
  }

  /** A group that cannot be joined stops the message with the join error;
      the chat stays registered and nothing else happens. */
  lemma JoinFailure(s: Bridge, msg: Message, r: Replies, c: Collaborators)
    requires msg.typ != "e2e_notification" && Entry(s, msg, r, c).Some? && JoinRefused(Entry(s, msg, r, c).value, r)
    ensures var (s1, o) := HandleMessage(s, msg, r, c);
      && o == Failed(r.joinError.value)
      && s1 == s.(chats := s.chats[msg.chat.id := Entry(s, msg, r, c).value])
  {
  }

  /** The chat's last timestamp moves, and one save starts, exactly when a
      fresh message is newer than it. */
  lemma Timestamps(s: Bridge, msg: Message, r: Replies, c: Collaborators)
    ensures var s1 := HandleMessage(s, msg, r, c).0;
      var moved := Fresh(s, msg, r, c) && IsNewer(s.timestamps, msg.chat.id, msg.timestamp);
      && s1.timestamps == (if moved then s.timestamps[msg.chat.id := msg.timestamp] else s.timestamps)
      && s1.saves == s.saves + (if moved then 1 else 0)
  {
    if Fresh(s, msg, r, c) {
      FreshHandOff(s, msg, r, c);
    }
  }

  /** No chat's last timestamp ever goes back. */
  lemma TimestampsOnlyGrow(s: Bridge, msg: Message, r: Replies, c: Collaborators)
    ensures var s1 := HandleMessage(s, msg, r, c).0;
      forall k :: k in s.timestamps ==> k in s1.timestamps && s1.timestamps[k] >= s.timestamps[k]
  {
    Timestamps(s, msg, r, c);
  }

  /** A message sent from the web client is recorded but neither relayed nor
      written. */
  lemma FromWebNotRelayed(s: Bridge, msg: Message, r: Replies, c: Collaborators)
    requires Fresh(s, msg, r, c) && msg.sentByMeFromWeb
    ensures var (s1, o) := HandleMessage(s, msg, r, c);
      && o == Handled
      && s1.irc == s.irc && s1.media == s.media
      && (s1.emitted == s.emitted || s1.emitted == s.emitted + [JoinedChat(msg.chat.id)])
  {
    FreshHandOff(s, msg, r, c);
  }

  /** What `Proceed` emits: possibly the JOIN of the chat, then relays of
      this message only, and those only when the message is new to its
      chat and the chat could be joined. */
  lemma ProceedEmissions(s: Bridge, msg: Message, r: Replies, c: Collaborators)
    requires msg.chat.id in s.chats
    ensures var s1 := Proceed(s, msg, r, c).0; var chat := s.chats[msg.chat.id];
      && s.emitted <= s1.emitted
      && (forall i :: |s.emitted| <= i < |s1.emitted| && s1.emitted[i].Relayed? ==>
            && !JoinRefused(chat, r) && msg.id !in chat.seen
            && s1.emitted[i].relay.chat == msg.chat.id && s1.emitted[i].relay.origin == msg.id
            && (MainRelay(s1.emitted[i]) ==> i == |s1.emitted| - 1))
      && (forall i, j :: |s.emitted| <= i < j < |s1.emitted| && s1.emitted[i].Relayed? && s1.emitted[j].Relayed? ==>
            s1.emitted[i].relay.quoted != s1.emitted[j].relay.quoted)
  {
    var id := msg.chat.id;
    var chat := s.chats[id];
    if !JoinRefused(chat, r) {
      var s1 := if chat.isGroup && !chat.joined then JoinChat(s, id) else s;
      assert s1.emitted == s.emitted || s1.emitted == s.emitted + [JoinedChat(id)];
      if msg.id !in s1.chats[id].seen {
        var s3 := NoteTimestamp(RecordId(s1, id, msg.id), id, msg.timestamp);
        var s4 := HandOff(s3, id, msg, r, c).0;
        assert Proceed(s, msg, r, c).0 == s4;
        assert RelaysOnly(s3.emitted, s4.emitted, id, msg.id);
        assert forall i :: |s.emitted| <= i < |s3.emitted| ==> !s4.emitted[i].Relayed?;
      }
    }
  }

  /** Everything emitted for one message: possibly the JOIN of its chat, then
      relays of this message only, the message's own relay last; relays only
      for a fresh message. */
  lemma Emissions(s: Bridge, msg: Message, r: Replies, c: Collaborators)
    ensures var s1 := HandleMessage(s, msg, r, c).0; var n := |s.emitted|;
      && s.emitted <= s1.emitted
      && (forall i :: n <= i < |s1.emitted| && s1.emitted[i].Relayed? ==>
            && Fresh(s, msg, r, c)
            && s1.emitted[i].relay.chat == msg.chat.id && s1.emitted[i].relay.origin == msg.id
            && (MainRelay(s1.emitted[i]) ==> i == |s1.emitted| - 1))
      && (forall i, j :: n <= i < j < |s1.emitted| && s1.emitted[i].Relayed? && s1.emitted[j].Relayed? ==>
            s1.emitted[i].relay.quoted != s1.emitted[j].relay.quoted)
  {
    if msg.typ != "e2e_notification" {
      if msg.chat.id in s.chats {
        ProceedEmissions(s, msg, r, c);
      } else if r.participants.Ok? {
        ProceedEmissions(Register(s, msg, r.participants.value, c), msg, r, c);
      }
    }
  }

  /** What `Proceed` emits besides relays: the JOIN of the message's chat,
      first and exactly when the chat is a group not yet joined and joining
      it succeeds. */
  lemma ProceedJoins(s: Bridge, msg: Message, r: Replies, c: Collaborators)
    requires msg.chat.id in s.chats
    ensures var s1 := Proceed(s, msg, r, c).0; var id := msg.chat.id; var chat := s.chats[id]; var n := |s.emitted|;
      var joins := chat.isGroup && !chat.joined && r.joinError.None?;
      && s.emitted <= s1.emitted
      && (joins ==> n < |s1.emitted| && s1.emitted[n] == JoinedChat(id))
      && (forall i :: n <= i < |s1.emitted| && s1.emitted[i].JoinedChat? ==> i == n && joins && s1.emitted[i].chat == id)
  {
    var id := msg.chat.id;
    var chat := s.chats[id];
    if !JoinRefused(chat, r) {
      var s1 := if chat.isGroup && !chat.joined then JoinChat(s, id) else s;
      if msg.id !in s1.chats[id].seen {
        var s3 := NoteTimestamp(RecordId(s1, id, msg.id), id, msg.timestamp);
        assert Proceed(s, msg, r, c) == HandOff(s3, id, msg, r, c);
        assert s3.emitted == s1.emitted;
      }
    }
  }

  /** A message emits at most one JOIN: that of its own chat, first, and
      exactly when the chat is a registered or newly registered group not
      yet joined, and joining it succeeds. */
  lemma JoinEmissions(s: Bridge, msg: Message, r: Replies, c: Collaborators)
    ensures var s1 := HandleMessage(s, msg, r, c).0; var n := |s.emitted|; var e := Entry(s, msg, r, c);
      var joins := msg.typ != "e2e_notification" && e.Some? && e.value.isGroup && !e.value.joined && r.joinError.None?;
      && s.emitted <= s1.emitted
      && (joins ==> n < |s1.emitted| && s1.emitted[n] == JoinedChat(msg.chat.id))
      && (forall i :: n <= i < |s1.emitted| && s1.emitted[i].JoinedChat? ==> i == n && joins && s1.emitted[i].chat == msg.chat.id)
  {
    if msg.typ != "e2e_notification" {
      if msg.chat.id in s.chats {
        ProceedJoins(s, msg, r, c);
      } else if r.participants.Ok? {
        ProceedJoins(Register(s, msg, r.participants.value, c), msg, r, c);
      }
    }
  }

  /** An end-to-end notification changes nothing at all. */
  lemma EndToEndIgnored(s: Bridge, msg: Message, r: Replies, c: Collaborators)
    requires msg.typ == "e2e_notification"
    ensures HandleMessage(s, msg, r, c) == (s, Handled)
  {
  }

  /** A refused quoted relay stops the message before its own relay, and
      changes nothing; a refused main relay returns its error after the
      quoted relay, if any, and relays nothing else. */
  lemma RelayFailures(s: Bridge, chatId: Id, msg: Message, from: string, to: string, r: Replies, c: Collaborators)
    requires chatId in s.chats
    ensures var (s1, o) := Relays(s, chatId, msg, from, to, r, c);
      && (msg.quoted.Some? && r.quotedRelayError.Some? ==> s1 == s && o == Failed(r.quotedRelayError.value))
      && ((msg.quoted.None? || r.quotedRelayError.None?) && r.relayError.Some? ==>
            && o == Failed(r.relayError.value)
            && |s1.emitted| == |s.emitted| + (if msg.quoted.Some? then 1 else 0)
            && forall i :: |s.emitted| <= i < |s1.emitted| ==> s1.emitted[i].Relayed? && s1.emitted[i].relay.quoted)
  {
  }

  /** A fresh message, with the media fetched and both relays accepted, is
      relayed after the quoted message it quotes, if any; both relays go
      from the client's nick (one's own message) or the sender's safe name,
      to the chat (a group or one's own message) or the client's nick. */
  lemma RelayedInOrder(s: Bridge, msg: Message, r: Replies, c: Collaborators)
    requires Fresh(s, msg, r, c) && !msg.sentByMeFromWeb && !msg.isNotification && msg.sender.Some?
    requires DownloadAndStoreMedia(s.media, msg, r.download, r.storeError, c).1.None?
    requires r.relayError.None? && r.quotedRelayError.None?
    ensures var (s1, o) := HandleMessage(s, msg, r, c);
      var e := Entry(s, msg, r, c).value;
      var id := msg.chat.id;
      var from := if msg.sentByMe then s.irc.nick else c.safeName(FormatContact(msg.sender.value));
      var to := if e.isGroup || msg.sentByMe then e.identifier else s.irc.nick;
      var blobs := DownloadAndStoreMedia(s.media, msg, r.download, r.storeError, c).0.blobs;
      && o == Handled
      && s1.irc == s.irc
      && s1.media.blobs == blobs
      && s1.emitted == s.emitted
           + (if e.isGroup && !e.joined then [JoinedChat(id)] else [])
           + (if msg.quoted.Some? then [Relayed(Relay(id, msg.id, from, to, MessageBody(msg.quoted.value, e.participants, s.me, blobs, c), true))] else [])
           + [Relayed(Relay(id, msg.id, from, to, MessageBody(msg, e.participants, s.me, blobs, c), false))]
  {
    var s3 := Recorded(s, msg, r, c);
    FreshHandOff(s, msg, r, c);
    RelayMessageShape(s3, msg.chat.id, msg, r, c);
  }

  /** `RelayMessage` on a message with a sender, its media fetched and both
      relays accepted. */
  lemma RelayMessageShape(s: Bridge, chatId: Id, msg: Message, r: Replies, c: Collaborators)
    requires chatId in s.chats && msg.sender.Some?
    requires DownloadAndStoreMedia(s.media, msg, r.download, r.storeError, c).1.None?
    requires r.relayError.None? && r.quotedRelayError.None?
    ensures var (s1, o) := RelayMessage(s, chatId, msg, r, c);
      var from := From(s, msg, c);
      var to := To(s, chatId, msg);
      var ps := s.chats[chatId].participants;
      var m := DownloadAndStoreMedia(s.media, msg, r.download, r.storeError, c).0;
      && o == Handled
      && s1 == s.(media := m, emitted := s1.emitted)
      && s1.emitted == s.emitted
           + (if msg.quoted.Some? then [Relayed(Relay(chatId, msg.id, from, to, MessageBody(msg.quoted.value, ps, s.me, m.blobs, c), true))] else [])
           + [Relayed(Relay(chatId, msg.id, from, to, MessageBody(msg, ps, s.me, m.blobs, c), false))]
  {
    var m := DownloadAndStoreMedia(s.media, msg, r.download, r.storeError, c).0;
    var s1 := s.(media := m);
    assert RelayMessage(s, chatId, msg, r, c) == Relays(s1, chatId, msg, From(s, msg, c), To(s, chatId, msg), r, c);
  }

  /** A fresh message without a sender crashes the handler after it has
      been recorded; nothing is relayed. */
  lemma NilSenderCrashes(s: Bridge, msg: Message, r: Replies, c: Collaborators)
    requires Fresh(s, msg, r, c) && !msg.sentByMeFromWeb && !msg.isNotification && msg.sender.None?
    ensures var (s1, o) := HandleMessage(s, msg, r, c);
      && o == Crashed(NilSender)
      && msg.id in s1.chats[msg.chat.id].seen
      && s1.irc == s.irc && s1.media == s.media
      && (s1.emitted == s.emitted || s1.emitted == s.emitted + [JoinedChat(msg.chat.id)])
  {
    FreshHandOff(s, msg, r, c);
  }

  /** A failed download or store ends the message with that error before
      anything is relayed. */
  lemma MediaFailureStops(s: Bridge, msg: Message, r: Replies, c: Collaborators)
    requires Fresh(s, msg, r, c) && !msg.sentByMeFromWeb && !msg.isNotification && msg.sender.Some?
    requires DownloadAndStoreMedia(s.media, msg, r.download, r.storeError, c).1.Some?
    ensures var (s1, o) := HandleMessage(s, msg, r, c);
      && o == Failed(DownloadAndStoreMedia(s.media, msg, r.download, r.storeError, c).1.value)
      && s1.media == DownloadAndStoreMedia(s.media, msg, r.download, r.storeError, c).0
      && (s1.emitted == s.emitted || s1.emitted == s.emitted + [JoinedChat(msg.chat.id)])
  {
    FreshHandOff(s, msg, r, c);
  }

  /** Every relay in the record comes from a registered chat and from a
      message its chat has recorded as handled. */
  ghost predicate RelaysRecorded(s: Bridge)
  {
    forall i :: 0 <= i < |s.emitted| && s.emitted[i].Relayed? ==>
      s.emitted[i].relay.chat in s.chats && s.emitted[i].relay.origin in s.chats[s.emitted[i].relay.chat].seen
  }

  /** No message has been relayed twice, neither itself nor the message it
      quotes. */
  ghost predicate NoRepeatedRelay(e: seq<Emission>)
  {
    forall i, j :: 0 <= i < j < |e| && e[i].Relayed? && e[j].Relayed? && e[i].relay.quoted == e[j].relay.quoted ==>
      e[i].relay.chat != e[j].relay.chat || e[i].relay.origin != e[j].relay.origin
  }

  /** Handling a message keeps both invariants: a message is relayed at most
      once, whatever is delivered. */
  lemma AtMostOnce(s: Bridge, msg: Message, r: Replies, c: Collaborators)
    requires RelaysRecorded(s) && NoRepeatedRelay(s.emitted)
    ensures RelaysRecorded(HandleMessage(s, msg, r, c).0)
    ensures NoRepeatedRelay(HandleMessage(s, msg, r, c).0.emitted)
  {
    var s1 := HandleMessage(s, msg, r, c).0;
    var id := msg.chat.id;
    var n := |s.emitted|;
    Registration(s, msg, r, c);
    Emissions(s, msg, r, c);
    forall i | 0 <= i < |s1.emitted| && s1.emitted[i].Relayed?
      ensures s1.emitted[i].relay.chat in s1.chats && s1.emitted[i].relay.origin in s1.chats[s1.emitted[i].relay.chat].seen
    {
      if i < n {
        assert s1.emitted[i] == s.emitted[i];
      }
    }
    forall i, j | 0 <= i < j < |s1.emitted| && s1.emitted[i].Relayed? && s1.emitted[j].Relayed?
        && s1.emitted[i].relay.quoted == s1.emitted[j].relay.quoted
      ensures s1.emitted[i].relay.chat != s1.emitted[j].relay.chat || s1.emitted[i].relay.origin != s1.emitted[j].relay.origin
    {
      assert s1.emitted[i] == s.emitted[i];
      if n <= j {
        assert s.emitted[i].relay.origin in s.chats[s.emitted[i].relay.chat].seen;
      } else {
        assert s1.emitted[j] == s.emitted[j];
      }
    }
  }

  /** A stream of deliveries, each with the services' replies to it. */
  function Deliver(s: Bridge, events: seq<(Message, Replies)>, c: Collaborators): Bridge
    decreases |events|
  {
    if |events| == 0 then s
    else Deliver(HandleMessage(s, events[0].0, events[0].1, c).0, events[1..], c)
  }

  /** Starting with nothing relayed, no delivery history relays a message
      twice. */
  lemma {:induction false} NeverRelayedTwice(s: Bridge, events: seq<(Message, Replies)>, c: Collaborators)
    requires RelaysRecorded(s) && NoRepeatedRelay(s.emitted)
    ensures NoRepeatedRelay(Deliver(s, events, c).emitted)
    ensures RelaysRecorded(Deliver(s, events, c))
    decreases |events|
  {
    if |events| > 0 {
      AtMostOnce(s, events[0].0, events[0].1, c);
      NeverRelayedTwice(HandleMessage(s, events[0].0, events[0].1, c).0, events[1..], c);
    }
  }
}
