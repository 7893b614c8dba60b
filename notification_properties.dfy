/** What `handleWhappNotification` promises: which notifications are
    refused, which lines each subtype writes, that the local user is never
    JOINed twice, and exactly when a chat stops being joined. */
module NotificationProperties {
  import opened Whapp
  import opened WhappMessages
  import IrcSession
  import Capabilities

  /** The lines a notification writes, recipient by recipient, before
      tagging. */
  function NotificationLines(s: Bridge, chatId: Id, msg: Message, author: string, rids: seq<Id>, c: Collaborators): seq<string>
    requires chatId in s.chats
    decreases |rids|
  {
    if |rids| == 0 then []
    else OneLine(s, chatId, msg, author, rids[0], c) + NotificationLines(s, chatId, msg, author, rids[1..], c)
  }

  /** The line written for one recipient, if any. */
  function OneLine(s: Bridge, chatId: Id, msg: Message, author: string, rid: Id, c: Collaborators): seq<string>
    requires chatId in s.chats
  {
    var line := NotificationLine(msg.subtype, author, NameOf(s, chatId, rid, c),
      s.chats[chatId].identifier, rid == s.me.selfId, c.privmsg);
    if line.Some? then [line.value] else []
  }

  /** One recipient, with the socket accepting the write. */
  lemma NotifyOneWrites(s: Bridge, chatId: Id, msg: Message, author: string, rid: Id, c: Collaborators)
    requires chatId in s.chats && s.irc.writable > 0
    ensures var r := NotifyOne(s, chatId, msg, author, rid, c);
      && r.1 == Handled
      && r.0.irc.out == s.irc.out + IrcSession.Lines(s.irc.caps, c.stamp(msg.timestamp), OneLine(s, chatId, msg, author, rid, c))
      && r.0.irc.writable >= s.irc.writable - 1
      && r.0.chats == (if rid == s.me.selfId && (msg.subtype == "leave" || msg.subtype == "remove") then Unjoin(s, chatId).chats else s.chats)
  {
    var here := OneLine(s, chatId, msg, author, rid, c);
    var stamp := c.stamp(msg.timestamp);
    var line := NotificationLine(msg.subtype, author, NameOf(s, chatId, rid, c), s.chats[chatId].identifier, rid == s.me.selfId, c.privmsg);
    var leaving := rid == s.me.selfId && (msg.subtype == "leave" || msg.subtype == "remove");
    if line.Some? {
      var irc := IrcSession.Write(s.irc, stamp, line.value).0;
      var text := IrcSession.Tagged(s.irc.caps, stamp, line.value) + "\n";
      assert here == [line.value];
      assert IrcSession.Lines(s.irc.caps, stamp, here) == [text] + IrcSession.Lines(s.irc.caps, stamp, []);
      assert irc.out == s.irc.out + [text];
      assert NotifyOne(s, chatId, msg, author, rid, c) == (if leaving then Unjoin(s.(irc := irc), chatId) else s.(irc := irc), Handled);
    } else {
      assert here == [];
      assert IrcSession.Lines(s.irc.caps, stamp, here) == [];
      assert s.irc.out + [] == s.irc.out;
      assert !leaving;
      assert NotifyOne(s, chatId, msg, author, rid, c) == (s, Handled);
    }
  }

  /** Name resolution does not depend on which chats are joined. */
  lemma {:induction false} FindNameIgnoresJoined(ps: seq<Participant>, a: map<Id, Chat>, b: map<Id, Chat>, id: Id, c: Collaborators)
    requires SameButJoined(a, b)
    ensures FindName(ps, a, id, c) == FindName(ps, b, id, c)
    decreases |ps|
  {
    if |ps| > 0 && ps[0].id != id {
      FindNameIgnoresJoined(ps[1..], a, b, id, c);
    }
  }

  /** The lines still to be written do not depend on which chats are joined
      or on what has been written already. */
  lemma {:induction false} LinesIgnoreJoined(s: Bridge, t: Bridge, chatId: Id, msg: Message, author: string, rids: seq<Id>, c: Collaborators)
    requires chatId in s.chats && SameButJoined(s.chats, t.chats)
    requires t.me == s.me && t.irc.nick == s.irc.nick
    ensures NotificationLines(s, chatId, msg, author, rids, c) == NotificationLines(t, chatId, msg, author, rids, c)
    decreases |rids|
  {
    if |rids| > 0 {
      FindNameIgnoresJoined(s.chats[chatId].participants, s.chats, t.chats, rids[0], c);
      assert t.chats[chatId].participants == s.chats[chatId].participants;
      assert NameOf(s, chatId, rids[0], c) == NameOf(t, chatId, rids[0], c);
      LinesIgnoreJoined(s, t, chatId, msg, author, rids[1..], c);
    }
  }

  /** The registry after a notification for `rids` has run to the end: the
      chat is no longer joined exactly when the local user left or was
      removed. */
  function AfterNotification(s: Bridge, chatId: Id, msg: Message, rids: seq<Id>): map<Id, Chat>
    requires chatId in s.chats
  {
    if (msg.subtype == "leave" || msg.subtype == "remove") && s.me.selfId in rids then Unjoin(s, chatId).chats
    else s.chats
  }

  /** When the socket takes every write, the notification loop succeeds and
      writes one line per recipient that has one, in recipient order, each
      tagged with the notification's own time. */
  lemma {:induction false} NotifyAllWrites(s: Bridge, chatId: Id, msg: Message, author: string, rids: seq<Id>, c: Collaborators)
    requires chatId in s.chats && s.irc.writable >= |rids|
    ensures var r := NotifyAll(s, chatId, msg, author, rids, c);
      && r.1 == Handled
      && r.0.irc.out == s.irc.out + IrcSession.Lines(s.irc.caps, c.stamp(msg.timestamp), NotificationLines(s, chatId, msg, author, rids, c))
    decreases |rids|
  {
    var stamp := c.stamp(msg.timestamp);
    if |rids| == 0 {
      assert IrcSession.Lines(s.irc.caps, stamp, []) == [];
      assert s.irc.out + [] == s.irc.out;
    } else {
      var s1 := NotifyOne(s, chatId, msg, author, rids[0], c).0;
      NotifyOneWrites(s, chatId, msg, author, rids[0], c);
      NotifyAllStep(s, chatId, msg, author, rids, c);
      NotifyAllWrites(s1, chatId, msg, author, rids[1..], c);
      LinesIgnoreJoined(s, s1, chatId, msg, author, rids[1..], c);
      var here := OneLine(s, chatId, msg, author, rids[0], c);
      var rest := NotificationLines(s, chatId, msg, author, rids[1..], c);
      var out2 := NotifyAll(s1, chatId, msg, author, rids[1..], c).0.irc.out;
      LinesAppend(s.irc.caps, stamp, here, rest);
      OutCompose(s.irc.out, s1.irc.out, out2, IrcSession.Lines(s.irc.caps, stamp, here), IrcSession.Lines(s.irc.caps, stamp, rest));
    }
  }

  /** When the socket takes every write, the notification loop clears
      `Joined` exactly when the local user is among the recipients of a
      leave or remove. */
  lemma {:induction false} NotifyAllUnjoins(s: Bridge, chatId: Id, msg: Message, author: string, rids: seq<Id>, c: Collaborators)
    requires chatId in s.chats && s.irc.writable >= |rids|
    ensures NotifyAll(s, chatId, msg, author, rids, c).0.chats == AfterNotification(s, chatId, msg, rids)
    decreases |rids|
  {
    if |rids| > 0 {
      var s1 := NotifyOne(s, chatId, msg, author, rids[0], c).0;
      NotifyAllStep(s, chatId, msg, author, rids, c);
      NotifyAllUnjoins(s1, chatId, msg, author, rids[1..], c);
      var leaving := msg.subtype == "leave" || msg.subtype == "remove";
      assert s1.chats == if rids[0] == s.me.selfId && leaving then Unjoin(s, chatId).chats else s.chats;
      assert s1.me == s.me;
    }
  }

  /** With the socket accepting the write, the loop goes on after the first
      recipient. */
  lemma NotifyAllStep(s: Bridge, chatId: Id, msg: Message, author: string, rids: seq<Id>, c: Collaborators)
    requires chatId in s.chats && s.irc.writable > 0 && |rids| > 0
    ensures var s1 := NotifyOne(s, chatId, msg, author, rids[0], c).0;
      && NotifyAll(s, chatId, msg, author, rids, c) == NotifyAll(s1, chatId, msg, author, rids[1..], c)
      && s1.irc.writable >= s.irc.writable - 1
      && s1.chats == (if rids[0] == s.me.selfId && (msg.subtype == "leave" || msg.subtype == "remove") then Unjoin(s, chatId).chats else s.chats)
  {
    NotifyOneWrites(s, chatId, msg, author, rids[0], c);
  }

  /** Two successive batches of writes are one batch of both. */
  lemma OutCompose(out0: seq<string>, out1: seq<string>, out2: seq<string>, a: seq<string>, b: seq<string>)
    requires out1 == out0 + a && out2 == out1 + b
    ensures out2 == out0 + (a + b)
  {
  }

  lemma {:induction false} LinesAppend(caps: Capabilities.CapSet, stamp: string, a: seq<string>, b: seq<string>)
    ensures IrcSession.Lines(caps, stamp, a + b) == IrcSession.Lines(caps, stamp, a) + IrcSession.Lines(caps, stamp, b)
    decreases |a|
  {
    if |a| == 0 {
      assert a + b == b;
      assert IrcSession.Lines(caps, stamp, a) == [];
    } else {
      assert (a + b)[1..] == a[1..] + b;
      assert (a + b)[0] == a[0];
      LinesAppend(caps, stamp, a[1..], b);
    }
  }

  /** Subtypes other than leave and remove never touch `Joined`, whether or
      not the writes succeed. */
  lemma {:induction false} OnlyLeaveOrRemoveUnjoin(s: Bridge, chatId: Id, msg: Message, author: string, rids: seq<Id>, c: Collaborators)
    requires chatId in s.chats && msg.subtype != "leave" && msg.subtype != "remove"
    ensures NotifyAll(s, chatId, msg, author, rids, c).0.chats == s.chats
    decreases |rids|
  {
    if |rids| > 0 {
      var (s1, o) := NotifyOne(s, chatId, msg, author, rids[0], c);
      assert s1.chats == s.chats;
      OnlyLeaveOrRemoveUnjoin(s1, chatId, msg, author, rids[1..], c);
    }
  }

  /** A notification none of whose recipients has a line, and which is not a
      leave or remove, changes nothing at all. */
  lemma {:induction false} SilentNotifyAll(s: Bridge, chatId: Id, msg: Message, author: string, rids: seq<Id>, c: Collaborators)
    requires chatId in s.chats && msg.subtype != "leave" && msg.subtype != "remove"
    requires forall i :: 0 <= i < |rids| ==>
      NotificationLine(msg.subtype, author, NameOf(s, chatId, rids[i], c), s.chats[chatId].identifier, rids[i] == s.me.selfId, c.privmsg).None?
    ensures NotifyAll(s, chatId, msg, author, rids, c) == (s, Handled)
    decreases |rids|
  {
    if |rids| > 0 {
      assert NotifyOne(s, chatId, msg, author, rids[0], c) == (s, Handled);
      SilentNotifyAll(s, chatId, msg, author, rids[1..], c);
    }
  }

  /** A notification type other than `gp2` and `call_log` is refused with
      an error naming it, and changes nothing. */
  lemma UnknownTypeRefused(s: Bridge, chatId: Id, msg: Message, c: Collaborators)
    requires chatId in s.chats && msg.typ != "gp2" && msg.typ != "call_log"
    ensures HandleNotification(s, chatId, msg, c) == (s, Failed("no idea what to do with notification type " + msg.typ))
  {
  }

  /** A notification without recipients writes nothing and changes nothing,
      whatever its subtype. */
  lemma NoRecipientsSilent(s: Bridge, chatId: Id, msg: Message, c: Collaborators)
    requires chatId in s.chats && (msg.typ == "gp2" || msg.typ == "call_log") && |msg.recipients| == 0
    ensures HandleNotification(s, chatId, msg, c) == (s, Handled)
  {
  }

  /** An unrecognised subtype (including `create`) writes nothing, changes
      nothing and is not an error. */
  lemma UnknownSubtypeSilent(s: Bridge, chatId: Id, msg: Message, c: Collaborators)
    requires chatId in s.chats && (msg.typ == "gp2" || msg.typ == "call_log")
    requires msg.subtype !in {"add", "invite", "leave", "remove", "miss"}
    ensures HandleNotification(s, chatId, msg, c) == (s, Handled)
  {
    if |msg.recipients| > 0 {
      SilentNotifyAll(s, chatId, msg, NameOf(s, chatId, Actor(msg), c), msg.recipients, c);
    }
  }

  /** The local user being added or invited is not JOINed again: the
      message that delivered the notification already joined the chat. */
  lemma NoSelfJoin(s: Bridge, chatId: Id, msg: Message, c: Collaborators)
    requires chatId in s.chats && (msg.typ == "gp2" || msg.typ == "call_log")
    requires msg.subtype == "add" || msg.subtype == "invite"
    requires forall i :: 0 <= i < |msg.recipients| ==> msg.recipients[i] == s.me.selfId
    ensures HandleNotification(s, chatId, msg, c) == (s, Handled)
  {
    if |msg.recipients| > 0 {
      SilentNotifyAll(s, chatId, msg, NameOf(s, chatId, Actor(msg), c), msg.recipients, c);
    }
  }

  /** With every write accepted, `Joined` is cleared exactly when the local
      user is a recipient of a leave or remove; no other entry changes. */
  lemma JoinedClearedExactly(s: Bridge, chatId: Id, msg: Message, c: Collaborators)
    requires chatId in s.chats && (msg.typ == "gp2" || msg.typ == "call_log")
    requires s.irc.writable >= |msg.recipients|
    ensures var r := HandleNotification(s, chatId, msg, c);
      && r.1 == Handled
      && r.0.chats.Keys == s.chats.Keys
      && (forall k :: k in s.chats && k != chatId ==> r.0.chats[k] == s.chats[k])
      && r.0.chats[chatId] == s.chats[chatId].(joined := r.0.chats[chatId].joined)
      && (r.0.chats[chatId].joined <==>
            s.chats[chatId].joined
            && !((msg.subtype == "leave" || msg.subtype == "remove") && s.me.selfId in msg.recipients))
  {
    if |msg.recipients| > 0 {
      NotifyAllUnjoins(s, chatId, msg, NameOf(s, chatId, Actor(msg), c), msg.recipients, c);
      NotifyAllWrites(s, chatId, msg, NameOf(s, chatId, Actor(msg), c), msg.recipients, c);
    }
  }

  /** A group-change removal of one other member writes exactly
      `:<author> KICK <channel> <member>` at the notification's time. */
  lemma KickLine(s: Bridge, chatId: Id, msg: Message, rid: Id, c: Collaborators)
    requires chatId in s.chats && msg.typ == "gp2" && msg.subtype == "remove"
    requires msg.recipients == [rid] && rid != s.me.selfId && s.irc.writable > 0
    ensures var r := HandleNotification(s, chatId, msg, c);
      var line := ":" + NameOf(s, chatId, Actor(msg), c) + " KICK " + s.chats[chatId].identifier
        + " " + FindName(s.chats[chatId].participants, s.chats, rid, c);
      && r.1 == Handled
      && r.0.irc.out == s.irc.out + [IrcSession.Tagged(s.irc.caps, c.stamp(msg.timestamp), line) + "\n"]
      && r.0.chats == s.chats
  {
    NotifyAllUnjoins(s, chatId, msg, NameOf(s, chatId, Actor(msg), c), msg.recipients, c);
    NotifyAllWrites(s, chatId, msg, NameOf(s, chatId, Actor(msg), c), msg.recipients, c);
  }

  /** The local user leaving a group writes `:<nick> PART <channel>` and
      marks the chat as not joined. */
  lemma SelfPartLine(s: Bridge, chatId: Id, msg: Message, c: Collaborators)
    requires chatId in s.chats && msg.typ == "gp2" && msg.subtype == "leave"
    requires msg.recipients == [s.me.selfId] && s.irc.writable > 0
    ensures var r := HandleNotification(s, chatId, msg, c);
      && r.1 == Handled
      && r.0.irc.out == s.irc.out + [IrcSession.Tagged(s.irc.caps, c.stamp(msg.timestamp),
           ":" + s.irc.nick + " PART " + s.chats[chatId].identifier) + "\n"]
      && !r.0.chats[chatId].joined
  {
    NotifyAllUnjoins(s, chatId, msg, NameOf(s, chatId, Actor(msg), c), msg.recipients, c);
    NotifyAllWrites(s, chatId, msg, NameOf(s, chatId, Actor(msg), c), msg.recipients, c);
  }
}
