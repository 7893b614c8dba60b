/** `ircconnection.Connection`: the per-socket object whose reader loop and
    writers update its fields in place. Every method is proved to leave the
    object in the state the corresponding function of IrcSession computes,
    so the lemmas proved there hold of the object. */
module IrcConnection {
  import opened GoStrings
  import opened Capabilities
  import opened IrcSession

  class Connection {
    var nick: string
    var pass: string
    var passReady: bool
    var caps: CapSet
    var out: seq<string>
    var writable: nat
    var queue: seq<IrcMessage>
    var stopped: bool
    var panicked: bool

    /** The object's state as an IrcSession value. */
    function Snapshot(): Session
      reads this
    {
      Session(nick, pass, passReady, caps, out, writable, queue, stopped, panicked)
    }

    ghost predicate Valid()
      reads this
    {
      IrcSession.Valid(Snapshot())
    }

    /** `HandleConnection`: a fresh session on a socket that accepts
        `writable` writes. */
    constructor (writable: nat)
      ensures Valid() && Snapshot() == Start(writable)
    {
      nick, pass, passReady := "", "", false;
      caps := Empty();
      out, this.writable := [], writable;
      queue, stopped, panicked := [], false, false;
    }

    function Nick(): string
      reads this
    {
      nick
    }

    function Pass(): string
      reads this
    {
      pass
    }

    /** `write`: one newline-terminated write to the socket. */
    method Send(text: string) returns (ok: bool)
      modifies this
      ensures (Snapshot(), ok) == IrcSession.Send(old(Snapshot()), text)
    {
      if writable == 0 {
        return false;
      }
      out := out + [text + "\n"];
      writable := writable - 1;
      return true;
    }

    /** `Write`: adds the `@time=` tag when `server-time` was negotiated. */
    method Write(stamp: string, msg: string) returns (ok: bool)
      modifies this
      ensures (Snapshot(), ok) == IrcSession.Write(old(Snapshot()), stamp, msg)
    {
      var text := msg;
      if ServerTime in caps.tokens {
        text := "@time=" + stamp + " " + msg;
      }
      ok := Send(text);
    }

    /** `WriteListNow`: writes the messages in order and stops at the first
        failed write. */
    method WriteListNow(now: string, msgs: seq<string>) returns (ok: bool)
      modifies this
      ensures (Snapshot(), ok) == WriteList(old(Snapshot()), now, msgs)
    {
      var i := 0;
      while i < |msgs|
        invariant 0 <= i <= |msgs|
        invariant WriteList(old(Snapshot()), now, msgs) == WriteList(Snapshot(), now, msgs[i..])
      {
        assert msgs[i..][1..] == msgs[i + 1..];
        var written := Write(now, msgs[i]);
        if !written {
          return false;
        }
        i := i + 1;
      }
      return true;
    }

    /** `PrivateMessage`: the audit log entry is not modelled. */
    method PrivateMessage(date: string, from: string, to: string, line: string, fmt: PrivmsgFormat) returns (ok: bool)
      modifies this
      ensures (Snapshot(), ok) == IrcSession.PrivateMessage(old(Snapshot()), date, from, to, line, fmt)
    {
      ok := Write(date, fmt(from, to, line));
    }

    /** `Status`: a private message from `status` to the current nick. */
    method Status(now: string, body: string, fmt: PrivmsgFormat) returns (ok: bool)
      modifies this
      ensures (Snapshot(), ok) == IrcSession.Status(old(Snapshot()), now, body, fmt)
    {
      ok := PrivateMessage(now, "status", nick, body, fmt);
    }

    /** One pass of the reader loop. */
    method HandleEvent(ev: ReadEvent)
      requires Valid()
      modifies this
      ensures Valid() && Snapshot() == Dispatch(old(Snapshot()), ev)
    {
      if stopped {
        return;
      }
      match ev
      case Eof =>
        stopped := true;
      case ReadError =>
        stopped := true;
      case Invalid =>
      case Received(m, now) =>
        if m.command == "PING" {
          if |m.params| == 0 {
            stopped, panicked := true, true;
            return;
          }
          var ok := Write(now, PongLine(m.params[0]));
          if !ok {
            stopped := true;
          }
        } else if m.command == "QUIT" {
          stopped := true;
        } else if m.command == "NICK" {
          if |m.params| == 0 {
            stopped, panicked := true, true;
            return;
          }
          nick := m.params[0];
        } else if m.command == "PASS" {
          pass := "";
          if |m.params| > 0 {
            pass := m.params[0];
          }
          passReady := true;
        } else if m.command == "CAP" {
          caps := StartNegotiation(caps);
          HandleCap(m, now);
        } else {
          queue := queue + [m];
        }
    }

    /** The `CAP` sub-commands; write errors are ignored, as in the source. */
    method HandleCap(m: IrcMessage, now: string)
      requires Valid()
      modifies this
      ensures Valid() && Snapshot() == IrcSession.HandleCap(old(Snapshot()), m, now)
    {
      if |m.params| == 0 {
        stopped, panicked := true, true;
        return;
      }
      var sub := m.params[0];
      if sub == "LS" {
        var _ := Write(now, CapLsLine);
      } else if sub == "LIST" {
        var _ := Write(now, ":whapp-irc CAP * LIST :" + Join(List(caps), ' '));
      } else if sub == "REQ" {
        var tokens := Split(Trailing(m), ' ');
        var i := 0;
        while i < |tokens|
          invariant 0 <= i <= |tokens|
          invariant Capabilities.Valid(caps)
          invariant AddAll(old(caps), tokens) == AddAll(caps, tokens[i..])
          invariant Snapshot() == old(Snapshot()).(caps := caps)
        {
          assert tokens[i..][1..] == tokens[i + 1..];
          caps := Add(caps, tokens[i]);
          i := i + 1;
        }
        var _ := Write(now, ":whapp-irc CAP * ACK :" + Join(List(caps), ' '));
      } else if sub == "END" {
        caps := FinishNegotiation(caps);
      }
    }

    /** The reader loop: handles reads until one ends it. */
    method Listen(evs: seq<ReadEvent>)
      requires Valid()
      modifies this
      ensures Valid() && Snapshot() == IrcSession.Listen(old(Snapshot()), evs)
    {
      var i := 0;
      while i < |evs| && !stopped
        invariant 0 <= i <= |evs|
        invariant Valid()
        invariant IrcSession.Listen(old(Snapshot()), evs) == IrcSession.Listen(Snapshot(), evs[i..])
      {
        assert evs[i..][1..] == evs[i + 1..];
        HandleEvent(evs[i]);
        i := i + 1;
      }
      if i < |evs| {
        StoppedIsFinal(Snapshot(), evs[i..]);
      }
    }
  }
}
