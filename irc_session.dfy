/** The IRC session of one client connection, as a value: what the reader
    loop of ircconnection/ircconnection.go does with each decoded line and
    what the writers put on the socket. The class IrcConnection.Connection
    updates the same state in place and is proved to agree with the
    functions here. */
module IrcSession {
  import opened GoStrings
  import opened Capabilities

  /** A decoded IRC line: the command and the decoder's full parameter
      list, whose last element is the trailing parameter when there is one. */
  datatype IrcMessage = IrcMessage(command: string, params: seq<string>)

  /** `Message.Trailing()` of the decoder: the last parameter, or "". */
  function Trailing(m: IrcMessage): string
  {
    if |m.params| > 0 then m.params[|m.params| - 1] else ""
  }

  /** What one read from the socket yields: end of stream, a read error, a
      line the decoder could not make sense of, or a message. `now` is the
      wall-clock reading taken when a reply is written, as formatted text. */
  datatype ReadEvent = Eof | ReadError | Invalid | Received(msg: IrcMessage, now: string)

  /** Formats a private message `(from, to, body)` as an IRC line. */
  type PrivmsgFormat = (string, string, string) -> string

  /** The state of one session.
      - `passReady` records that the pass notification has fired;
      - `out` is every line written to the socket, in order;
      - `writable` is how many more writes the transport accepts before a
        write fails (a broken socket stays broken);
      - `queue` holds the messages handed on to the application, in order;
      - `stopped` says the reader loop has ended (queue closed, lifetime
        cancelled); `panicked` says it ended by a run-time panic. */
  datatype Session = Session(
    nick: string,
    pass: string,
    passReady: bool,
    caps: CapSet,
    out: seq<string>,
    writable: nat,
    queue: seq<IrcMessage>,
    stopped: bool,
    panicked: bool)

  predicate Valid(s: Session)
  {
    Capabilities.Valid(s.caps)
  }

  /** A session as `HandleConnection` creates it. */
  function Start(writable: nat): (s: Session)
    ensures Valid(s) && s.out == [] && s.queue == [] && !s.stopped && !s.passReady
  {
    Session("", "", false, Empty(), [], writable, [], false, false)
  }

  const ServerTime := "server-time"
  const CapLsLine := ":whapp-irc CAP * LS :server-time whapp-irc/replay"

  function PongLine(token: string): string
  {
    ":whapp-irc PONG whapp-irc :" + token
  }

  /** The commands the reader loop handles itself and never hands on. */
  predicate IsLocal(command: string)
  {
    command == "PING" || command == "QUIT" || command == "NICK" || command == "PASS" || command == "CAP"
  }

  /** The text `Write` hands to the socket for `msg`: with an IRCv3
      `server-time` tag in front exactly when that capability has been
      negotiated. Every line this server writes starts with ':', so for those
      the first character tells whether a tag is present. */
  function Tagged(caps: CapSet, stamp: string, msg: string): (text: string)
    ensures |text| >= |msg| && text[|text| - |msg|..] == msg
    ensures Has(caps, ServerTime) ==> text[..|text| - |msg|] == "@time=" + stamp + " "
    ensures !Has(caps, ServerTime) ==> text == msg
    ensures |msg| > 0 && msg[0] == ':' ==> (text[0] == '@' <==> Has(caps, ServerTime))
  {
    if Has(caps, ServerTime) then
      var tag := "@time=" + stamp + " ";
      assert (tag + msg)[..|tag|] == tag;
      tag + msg
    else msg
  }

  /** `write`: one newline-terminated write to the socket. */
  function Send(s: Session, text: string): (r: (Session, bool))
    ensures r.0 == s.(out := r.0.out, writable := r.0.writable)
    ensures r.1 <==> s.writable > 0
    ensures r.0.out == s.out + (if r.1 then [text + "\n"] else [])
    ensures r.0.writable == s.writable - (if r.1 then 1 else 0)
  {
    if s.writable == 0 then (s, false)
    else (s.(out := s.out + [text + "\n"], writable := s.writable - 1), true)
  }

  /** `Connection.Write`: tags `msg` with `stamp` when `server-time` was
      negotiated and sends it. */
  function Write(s: Session, stamp: string, msg: string): (r: (Session, bool))
    ensures r.0 == s.(out := r.0.out, writable := r.0.writable)
    ensures r.1 <==> s.writable > 0
    ensures r.0.out == s.out + (if r.1 then [Tagged(s.caps, stamp, msg) + "\n"] else [])
  {
    Send(s, Tagged(s.caps, stamp, msg))
  }

  /** The socket text for each of `msgs`, in order. */
  function Lines(caps: CapSet, stamp: string, msgs: seq<string>): (ls: seq<string>)
    ensures |ls| == |msgs|
  {
    if |msgs| == 0 then [] else [Tagged(caps, stamp, msgs[0]) + "\n"] + Lines(caps, stamp, msgs[1..])
  }

  /** Line `i` on the socket is message `i`, tagged, with its newline. */
  lemma {:induction false} LinesAt(caps: CapSet, stamp: string, msgs: seq<string>)
    ensures forall i :: 0 <= i < |msgs| ==> Lines(caps, stamp, msgs)[i] == Tagged(caps, stamp, msgs[i]) + "\n"
    decreases |msgs|
  {
    if |msgs| > 0 {
      var rest := Lines(caps, stamp, msgs[1..]);
      LinesAt(caps, stamp, msgs[1..]);
      assert Lines(caps, stamp, msgs) == [Tagged(caps, stamp, msgs[0]) + "\n"] + rest;
      forall i | 0 < i < |msgs|
        ensures Lines(caps, stamp, msgs)[i] == Tagged(caps, stamp, msgs[i]) + "\n"
      {
        assert Lines(caps, stamp, msgs)[i] == rest[i - 1];
        assert msgs[1..][i - 1] == msgs[i];
      }
    }
  }

  /** `WriteListNow`: writes the messages one by one and gives up at the
      first failed write. */
  function WriteList(s: Session, now: string, msgs: seq<string>): (r: (Session, bool))
    ensures r.0 == s.(out := r.0.out, writable := r.0.writable)
    ensures s.out <= r.0.out && r.0.writable <= s.writable
    decreases |msgs|
  {
    if |msgs| == 0 then (s, true)
    else
      var (s1, ok) := Write(s, now, msgs[0]);
      if !ok then (s1, false) else WriteList(s1, now, msgs[1..])
  }

  /** The call fails exactly when a line is left unwritten. */
  lemma {:induction false} WriteListOk(s: Session, now: string, msgs: seq<string>)
    ensures WriteList(s, now, msgs).1 == (|msgs| <= s.writable)
    decreases |msgs|
  {
    if |msgs| > 0 && s.writable > 0 {
      WriteListStep(s, now, msgs);
      WriteListOk(WriteListNext(s, now, msgs), now, msgs[1..]);
    }
  }

  /** The session after the first of `msgs` has been written. */
  function WriteListNext(s: Session, now: string, msgs: seq<string>): Session
    requires |msgs| > 0 && s.writable > 0
  {
    s.(out := s.out + [Tagged(s.caps, now, msgs[0]) + "\n"], writable := s.writable - 1)
  }

  lemma WriteListStep(s: Session, now: string, msgs: seq<string>)
    requires |msgs| > 0 && s.writable > 0
    ensures WriteList(s, now, msgs) == WriteList(WriteListNext(s, now, msgs), now, msgs[1..])
  {
  }

  lemma LinesStep(caps: CapSet, now: string, msgs: seq<string>, k: nat)
    requires 0 < k <= |msgs|
    ensures Lines(caps, now, msgs[..k]) == [Tagged(caps, now, msgs[0]) + "\n"] + Lines(caps, now, msgs[1..][..k - 1])
  {
    assert msgs[..k][1..] == msgs[1..][..k - 1];
  }

  /** What `WriteList` leaves: the first `k` lines written, where `k` is
      how many of them the socket accepts. */
  predicate WrotePrefix(s: Session, now: string, msgs: seq<string>, r: Session)
  {
    var k := if |msgs| <= s.writable then |msgs| else s.writable;
    r == s.(out := s.out + Lines(s.caps, now, msgs[..k]), writable := s.writable - k)
  }

  /** The lines are written in order up to the first one the socket refuses
      and nothing after that one is written. Nothing but the output and the
      socket's remaining capacity changes. */
  lemma {:induction false} WriteListPrefix(s: Session, now: string, msgs: seq<string>)
    ensures WrotePrefix(s, now, msgs, WriteList(s, now, msgs).0)
    decreases |msgs|
  {
    if |msgs| == 0 || s.writable == 0 {
      assert msgs[..0] == [];
      assert s.out + Lines(s.caps, now, []) == s.out;
      assert |msgs| > 0 ==> WriteList(s, now, msgs) == (s, false);
    } else {
      WriteListPrefix(WriteListNext(s, now, msgs), now, msgs[1..]);
      WrotePrefixStep(s, now, msgs);
    }
  }

  /** The inductive step of `WriteListPrefix`. */
  lemma WrotePrefixStep(s: Session, now: string, msgs: seq<string>)
    requires |msgs| > 0 && s.writable > 0
    requires WrotePrefix(WriteListNext(s, now, msgs), now, msgs[1..], WriteList(WriteListNext(s, now, msgs), now, msgs[1..]).0)
    ensures WrotePrefix(s, now, msgs, WriteList(s, now, msgs).0)
  {
    var s1 := WriteListNext(s, now, msgs);
    var k := if |msgs| <= s.writable then |msgs| else s.writable;
    var k1 := if |msgs| - 1 <= s1.writable then |msgs| - 1 else s1.writable;
    assert k1 == k - 1;
    var line := Tagged(s.caps, now, msgs[0]) + "\n";
    var rest := Lines(s.caps, now, msgs[1..][..k - 1]);
    assert s1.out == s.out + [line];
    WriteListStep(s, now, msgs);
    assert WriteList(s, now, msgs).0 == s1.(out := s1.out + rest, writable := s1.writable - k1);
    LinesStep(s.caps, now, msgs, k);
    AppendAssoc(s.out, [line], rest);
  }

  /** `PrivateMessage`: writes a private message stamped with `date`. */
  function PrivateMessage(s: Session, date: string, from: string, to: string, line: string, fmt: PrivmsgFormat): (r: (Session, bool))
    ensures r.0 == s.(out := r.0.out, writable := r.0.writable)
    ensures r.1 <==> s.writable > 0
    ensures r.0.out == s.out + (if r.1 then [Tagged(s.caps, date, fmt(from, to, line)) + "\n"] else [])
  {
    Write(s, date, fmt(from, to, line))
  }

  /** `Status`: a private message from `status` to the client's own nick. */
  function Status(s: Session, now: string, body: string, fmt: PrivmsgFormat): (r: (Session, bool))
    ensures r == Write(s, now, fmt("status", s.nick, body))
  {
    PrivateMessage(s, now, "status", s.nick, body, fmt)
  }

  /** An index out of range ends the reader by a run-time panic. */
  function Panic(s: Session): Session
  {
    s.(stopped := true, panicked := true)
  }

  /** The `CAP` case, after negotiation has been started. */
  function HandleCap(s: Session, m: IrcMessage, now: string): (r: Session)
    requires Valid(s)
    ensures Valid(r)
  {
    if |m.params| == 0 then Panic(s)
    else if m.params[0] == "LS" then Write(s, now, CapLsLine).0
    else if m.params[0] == "LIST" then Write(s, now, ":whapp-irc CAP * LIST :" + Join(List(s.caps), ' ')).0
    else if m.params[0] == "REQ" then
      var s1 := s.(caps := AddAll(s.caps, Split(Trailing(m), ' ')));
      Write(s1, now, ":whapp-irc CAP * ACK :" + Join(List(s1.caps), ' ')).0
    else if m.params[0] == "END" then s.(caps := FinishNegotiation(s.caps))
    else s
  }

  /** One pass of the reader loop for a decoded message. */
  function HandleMessage(s: Session, m: IrcMessage, now: string): (r: Session)
    requires Valid(s)
    ensures Valid(r)
  {
    if m.command == "PING" then
      if |m.params| == 0 then Panic(s)
      else
        var (s1, ok) := Write(s, now, PongLine(m.params[0]));
        if ok then s1 else s1.(stopped := true)
    else if m.command == "QUIT" then s.(stopped := true)
    else if m.command == "NICK" then
      if |m.params| == 0 then Panic(s) else s.(nick := m.params[0])
    else if m.command == "PASS" then
      s.(pass := if |m.params| > 0 then m.params[0] else "", passReady := true)
    else if m.command == "CAP" then
      HandleCap(s.(caps := StartNegotiation(s.caps)), m, now)
    else s.(queue := s.queue + [m])
  }

  /** One pass of the reader loop; once the loop has ended nothing happens. */
  function Dispatch(s: Session, ev: ReadEvent): (r: Session)
    requires Valid(s)
    ensures Valid(r)
  {
    if s.stopped then s
    else match ev
      case Eof => s.(stopped := true)
      case ReadError => s.(stopped := true)
      case Invalid => s
      case Received(m, now) => HandleMessage(s, m, now)
  }

  /** The reader loop over a sequence of reads. */
  function Listen(s: Session, evs: seq<ReadEvent>): (r: Session)
    requires Valid(s)
    ensures Valid(r)
    decreases |evs|
  {
    if |evs| == 0 then s else Listen(Dispatch(s, evs[0]), evs[1..])
  }

  /** The messages among `evs` that the reader hands on, in arrival order. */
  function Forwarded(evs: seq<ReadEvent>): (ms: seq<IrcMessage>)
    ensures forall i :: 0 <= i < |ms| ==> !IsLocal(ms[i].command)
    ensures |ms| <= |evs|
  {
    if |evs| == 0 then [] else Handed(evs[0]) + Forwarded(evs[1..])
  }

  /** What one read hands on: a received message the reader does not
      answer itself. */
  function Handed(ev: ReadEvent): seq<IrcMessage>
  {
    if ev.Received? && !IsLocal(ev.msg.command) then [ev.msg] else []
  }

  /** The reads up to `k + 1` hand on what the first does, then what the
      next `k` do. */
  lemma ForwardedStep(evs: seq<ReadEvent>, k: nat)
    requires k < |evs|
    ensures Forwarded(evs[..k + 1]) == Handed(evs[0]) + Forwarded(evs[1..][..k])
  {
    assert evs[..k + 1][1..] == evs[1..][..k];
  }

  lemma AppendAssoc<T>(a: seq<T>, b: seq<T>, c: seq<T>)
    ensures a + b + c == a + (b + c)
  {
  }

  /** A PING with a token is answered on the same connection with exactly
      the PONG line and is not handed on; only the output changes. */
  lemma PingAnswered(s: Session, token: string, rest: seq<string>, now: string)
    requires Valid(s) && !s.stopped && s.writable > 0
    ensures var r := Dispatch(s, Received(IrcMessage("PING", [token] + rest), now));
      && r.out == s.out + [Tagged(s.caps, now, ":whapp-irc PONG whapp-irc :" + token) + "\n"]
      && r.queue == s.queue && !r.stopped
      && r == s.(out := r.out, writable := s.writable - 1)
  {
  }

  /** A PING the socket cannot answer ends the loop. */
  lemma PingWriteFailureStops(s: Session, token: string, rest: seq<string>, now: string)
    requires Valid(s) && !s.stopped && s.writable == 0
    ensures Dispatch(s, Received(IrcMessage("PING", [token] + rest), now)) == s.(stopped := true)
  {
  }

  /** Only commands other than PING, QUIT, NICK, PASS and CAP reach the
      queue, each appended once at the end; the local ones never do. */
  lemma DispatchQueue(s: Session, ev: ReadEvent)
    requires Valid(s) && !s.stopped
    ensures Dispatch(s, ev).queue == s.queue + Handed(ev)
  {
    if ev.Received? && ev.msg.command == "CAP" {
      var s1 := s.(caps := StartNegotiation(s.caps));
      assert HandleCap(s1, ev.msg, ev.now).queue == s.queue;
    }
  }

  /** QUIT, end of stream and a read error end the loop; an undecodable line
      is skipped and the loop goes on unchanged. */
  lemma LoopEnds(s: Session, m: IrcMessage, now: string)
    requires Valid(s) && !s.stopped
    ensures Dispatch(s, Eof) == s.(stopped := true)
    ensures Dispatch(s, ReadError) == s.(stopped := true)
    ensures Dispatch(s, Invalid) == s
    ensures m.command == "QUIT" ==> Dispatch(s, Received(m, now)) == s.(stopped := true)
  {
  }

  /** Once the loop has ended, further reads change nothing. */
  lemma {:induction false} StoppedIsFinal(s: Session, evs: seq<ReadEvent>)
    requires Valid(s) && s.stopped
    ensures Listen(s, evs) == s
    decreases |evs|
  {
    if |evs| > 0 {
      StoppedIsFinal(Dispatch(s, evs[0]), evs[1..]);
    }
  }

  /** While the loop runs, the queue receives the handed-on messages of all
      reads, in arrival order. */
  lemma {:induction false} ListenQueue(s: Session, evs: seq<ReadEvent>)
    requires Valid(s) && !Listen(s, evs).stopped
    ensures Listen(s, evs).queue == s.queue + Forwarded(evs)
    decreases |evs|
  {
    if |evs| == 0 {
      assert s.queue + [] == s.queue;
    } else {
      var s1 := Dispatch(s, evs[0]);
      if s.stopped {
        StoppedIsFinal(s, evs);
        assert false;
      }
      DispatchQueue(s, evs[0]);
      ListenQueue(s1, evs[1..]);
      AppendAssoc(s.queue, Handed(evs[0]), Forwarded(evs[1..]));
    }
  }

  /** The loop runs through the first `k` reads and, when there are more,
      the next read ends it. */
  predicate RanFor(s: Session, evs: seq<ReadEvent>, k: nat)
    requires Valid(s)
  {
    && k <= |evs|
    && (forall j :: 0 <= j < k ==> !Listen(s, evs[..j]).stopped)
    && (k < |evs| ==> Listen(s, evs[..k + 1]).stopped)
  }

  /** Whenever the loop ends, the queue holds the handed-on messages of the
      reads taken before it ended, in arrival order, and none of the reads
      after the one that ended it. */
  lemma {:induction false} ListenQueuePrefix(s: Session, evs: seq<ReadEvent>)
    requires Valid(s)
    ensures exists k: nat :: RanFor(s, evs, k) && Listen(s, evs).queue == s.queue + Forwarded(evs[..k])
    decreases |evs|
  {
    if |evs| == 0 {
      assert RanFor(s, evs, 0) && Listen(s, evs).queue == s.queue + Forwarded(evs[..0]);
    } else if s.stopped {
      StoppedIsFinal(s, evs);
      StoppedIsFinal(s, evs[..1]);
      assert RanFor(s, evs, 0) && Listen(s, evs).queue == s.queue + Forwarded(evs[..0]);
    } else {
      var s1 := Dispatch(s, evs[0]);
      DispatchQueue(s, evs[0]);
      ListenQueuePrefix(s1, evs[1..]);
      var k1: nat :| RanFor(s1, evs[1..], k1) && Listen(s1, evs[1..]).queue == s1.queue + Forwarded(evs[1..][..k1]);
      RanForStep(s, evs, k1);
      assert Listen(s, evs) == Listen(s1, evs[1..]);
      ForwardedStep(evs, k1);
      AppendAssoc(s.queue, Handed(evs[0]), Forwarded(evs[1..][..k1]));
      assert Listen(s, evs).queue == s.queue + Forwarded(evs[..k1 + 1]);
    }
  }

  /** One more read in front of a run that lasted `k` reads. */
  lemma RanForStep(s: Session, evs: seq<ReadEvent>, k: nat)
    requires Valid(s) && !s.stopped && |evs| > 0
    requires RanFor(Dispatch(s, evs[0]), evs[1..], k)
    ensures RanFor(s, evs, k + 1)
  {
    var s1 := Dispatch(s, evs[0]);
    forall j | 0 <= j < k + 1
      ensures !Listen(s, evs[..j]).stopped
    {
      if j > 0 {
        ListenPrefixStep(s, evs, j - 1);
      }
    }
    if k + 1 < |evs| {
      ListenPrefixStep(s, evs, k + 1);
    }
  }

  /** Reading a prefix of `j + 1` reads is reading the first, then `j`. */
  lemma ListenPrefixStep(s: Session, evs: seq<ReadEvent>, j: nat)
    requires Valid(s) && j < |evs|
    ensures Listen(s, evs[..j + 1]) == Listen(Dispatch(s, evs[0]), evs[1..][..j])
  {
    assert evs[..j + 1][1..] == evs[1..][..j];
  }

  /** PASS stores its first parameter, or "" without one, every time, and
      fires the pass notification; nothing else changes. */
  lemma PassStored(s: Session, m: IrcMessage, now: string)
    requires Valid(s) && !s.stopped && m.command == "PASS"
    ensures var r := Dispatch(s, Received(m, now));
      r == s.(pass := if |m.params| > 0 then m.params[0] else "", passReady := true)
  {
  }

  /** The pass notification, once fired, stays fired: it fires on the first
      PASS only. */
  lemma {:induction false} PassReadyStays(s: Session, evs: seq<ReadEvent>)
    requires Valid(s) && s.passReady
    ensures Listen(s, evs).passReady
    decreases |evs|
  {
    if |evs| > 0 {
      var s1 := Dispatch(s, evs[0]);
      if !s.stopped && evs[0].Received? && evs[0].msg.command == "CAP" {
        var m := evs[0].msg;
        assert HandleCap(s.(caps := StartNegotiation(s.caps)), m, evs[0].now).passReady;
      }
      PassReadyStays(s1, evs[1..]);
    }
  }

  /** NICK sets the nick to its first parameter; nothing else changes. */
  lemma NickSet(s: Session, nick: string, rest: seq<string>, now: string)
    requires Valid(s) && !s.stopped
    ensures Dispatch(s, Received(IrcMessage("NICK", [nick] + rest), now)) == s.(nick := nick)
  {
  }

  /** CAP REQ accepts every space-separated token of the trailing
      parameter, whether or not the ACK can be written: the set afterwards
      holds exactly the old tokens and the requested ones, the old ones first,
      and negotiation is open. */
  lemma CapReqAdds(s: Session, m: IrcMessage, now: string)
    requires Valid(s) && !s.stopped
    requires m.command == "CAP" && |m.params| > 0 && m.params[0] == "REQ"
    ensures var r := Dispatch(s, Received(m, now));
      && (forall t :: Has(r.caps, t) <==> Has(s.caps, t) || t in Split(Trailing(m), ' '))
      && s.caps.tokens <= r.caps.tokens
      && r.caps.negotiating
      && r.queue == s.queue && !r.stopped
  {
    var s1 := s.(caps := StartNegotiation(s.caps));
    AddAllExactly(s1.caps, Split(Trailing(m), ' '));
  }

  /** The reply to CAP REQ is one ACK line listing the whole resulting set. */
  lemma CapReqAcks(s: Session, m: IrcMessage, now: string)
    requires Valid(s) && !s.stopped && s.writable > 0
    requires m.command == "CAP" && |m.params| > 0 && m.params[0] == "REQ"
    ensures var r := Dispatch(s, Received(m, now));
      r.out == s.out + [Tagged(r.caps, now, ":whapp-irc CAP * ACK :" + Join(List(r.caps), ' ')) + "\n"]
  {
  }

  /** The reply to CAP LIST is one LIST line naming the negotiated tokens;
      the tokens stay as they were. */
  lemma CapListReply(s: Session, m: IrcMessage, now: string)
    requires Valid(s) && !s.stopped && s.writable > 0
    requires m.command == "CAP" && |m.params| > 0 && m.params[0] == "LIST"
    ensures var r := Dispatch(s, Received(m, now));
      && r.out == s.out + [Tagged(s.caps, now, ":whapp-irc CAP * LIST :" + Join(List(s.caps), ' ')) + "\n"]
      && r.caps.tokens == s.caps.tokens && r.caps.negotiating
      && r.queue == s.queue && !r.stopped
  {
  }

  /** Every CAP opens negotiation and only CAP END closes it; CAP LS writes
      the fixed list of supported capabilities; CAP END and unknown
      sub-commands write nothing. */
  lemma CapNegotiation(s: Session, m: IrcMessage, now: string)
    requires Valid(s) && !s.stopped && m.command == "CAP" && |m.params| > 0
    ensures var r := Dispatch(s, Received(m, now));
      && r.caps.negotiating == (m.params[0] != "END")
      && (m.params[0] != "REQ" ==> r.caps.tokens == s.caps.tokens)
      && (m.params[0] == "LS" && s.writable > 0 ==>
            r.out == s.out + [Tagged(s.caps, now, CapLsLine) + "\n"])
      && (m.params[0] !in {"LS", "LIST", "REQ"} ==> r.out == s.out && r.writable == s.writable)
      && r.queue == s.queue && !r.stopped
  {
  }
}
