/** The control plane server (pkg/server.go): one connection against the daemon. */
module Servers {
  import opened Basics
  import opened Protocol
  import opened Machines
  import opened Daemons
  import opened Framing
  import opened ConnectionLoop

  function HandlingOf(codec: Codec, faults: Faults): Handling<View, Outside>
  {
    Handling(codec.envelope, (v, env, o) => Dispatch(codec, faults, v, env, o))
  }

  class Server {
    const daemon: Daemon

    constructor (daemon: Daemon)
      ensures this.daemon == daemon
    {
      this.daemon := daemon;
    }

    /** The daemon as the handler of this server. */
    ghost function Handler(): Handling<View, Outside>
    {
      HandlingOf(daemon.codec, daemon.mounts.commander.faults)
    }

    /** One non-empty line: handle it and write the answer; `stop` ends the connection. */
    method HandleLine(conn: Connection, line: Bytes, o: Outside) returns (stop: bool)
      requires daemon.lifecycle.Valid()
      modifies conn`sent, conn`writeCount, daemon, daemon.secrets.dir, daemon.mounts, daemon.mounts.commander
      ensures daemon.lifecycle.Valid()
      ensures var (after, reply) := Answer(Handler(), old(daemon.Now()), line, o);
        && daemon.Now() == after
        && conn.sent == old(conn.sent) + (if conn.failing(old(conn.writeCount)) then [] else [reply.response])
        && stop == (conn.failing(old(conn.writeCount)) && reply.stopIfUnsent)
      ensures conn.writeCount == old(conn.writeCount) + 1
    {
      var env := daemon.codec.envelope(line);
      if env.None? {
        var _ := conn.Encode(Ack("", false, Some(Malformed)));
        return false;
      }
      var outcome := daemon.HandleMessage(env.value, o);
      var ok := conn.Encode(ResponseTo(env.value.msgType, outcome));
      return outcome.Answered? && !ok;
    }

    ghost predicate Ready(scanner: Scanner)
      reads daemon.lifecycle, scanner, scanner.conn
    {
      daemon.lifecycle.Valid() && scanner.Valid()
    }

    /** What the connection still gives, from the daemon's state on, after what is sent. */
    ghost function Outlook(scanner: Scanner, wx: Weather<Outside>, n: nat): (View, seq<Response>)
      reads daemon, daemon.lifecycle, daemon.lifecycle.agents, daemon.secrets.dir, daemon.mounts,
            daemon.mounts.commander, scanner, scanner.conn
      requires Ready(scanner)
    {
      After(scanner.conn.sent,
        Serve(Handler(), wx, daemon.Now(), Lines(scanner.Stream()), n, scanner.conn.writeCount))
    }

    /** One round of the loop; `stop` ends it. */
    method Round(scanner: Scanner, ghost wx: Weather<Outside>, n: nat, cancelled: bool, o: Outside)
      returns (stop: bool)
      requires Ready(scanner)
      requires wx.cancelled(n) == cancelled && wx.outside(n) == o && wx.failing == scanner.conn.failing
      modifies scanner.conn, scanner, daemon, daemon.secrets.dir, daemon.mounts, daemon.mounts.commander
      ensures Ready(scanner)
      ensures stop ==> old(Outlook(scanner, wx, n)) == (daemon.Now(), scanner.conn.sent)
      ensures !stop ==> old(Outlook(scanner, wx, n)) == Outlook(scanner, wx, n + 1)
      ensures !stop ==> |scanner.Stream()| < |old(scanner.Stream())|
    {
      hide Answer, HandlingOf, Next, Lines, Serve, After;
      ghost var h, v, sent, w := Handler(), daemon.Now(), scanner.conn.sent, scanner.conn.writeCount;
      LinesUnfold(scanner.Stream());
      ghost var lines := Lines(scanner.Stream());
      var more, line := scanner.Scan();
      if !more || cancelled {
        ServeEnds(h, wx, v, lines, n, w, sent);
        return true;
      }
      ghost var rest := Lines(scanner.Stream());
      if line == [] {
        SkipEmpty(h, wx, v, rest, n, w);
        return false;
      }
      ServeLine(h, wx, v, line, rest, n, w, sent);
      stop := HandleLine(scanner.conn, line, o);
    }

    method HandleConnection(conn: Connection, cancelled: nat -> bool, outside: nat -> Outside)
      requires daemon.lifecycle.Valid() && conn.sent == [] && conn.writeCount == 0
      modifies conn, daemon, daemon.secrets.dir, daemon.mounts, daemon.mounts.commander
      ensures daemon.lifecycle.Valid()
      ensures (daemon.Now(), conn.sent) ==
        Serve(Handler(), Weather(cancelled, outside, conn.failing), old(daemon.Now()),
              Lines(old(conn.unread)), 0, 0)
    {
      var scanner := new Scanner(conn);
      var n: nat := 0;
      ghost var wx := Weather(cancelled, outside, conn.failing);
      ghost var whole := Serve(Handler(), wx, daemon.Now(), Lines(conn.unread), 0, 0);
      assert scanner.Stream() == conn.unread && [] + whole.1 == whole.1;
      while true
        invariant Ready(scanner) && fresh(scanner) && scanner.conn == conn
        invariant whole == Outlook(scanner, wx, n)
        decreases |scanner.Stream()|
      {
        var stop := Round(scanner, wx, n, cancelled(n), outside(n));
        if stop { break; }
        n := n + 1;
      }
    }
  }

  /** The response to a well-formed frame names that frame; malformed text gets an error ack
      and changes nothing, like an empty line. */
  lemma AnswerFits(codec: Codec, faults: Faults, v: View, line: Bytes, o: Outside)
    ensures var (after, reply) := Answer(HandlingOf(codec, faults), v, line, o);
      match codec.envelope(line)
      case Some(env) => Answers(reply.response, env.msgType)
      case None => after == v && reply.response == Ack("", false, Some(Malformed))
  {
    if codec.envelope(line).Some? {
      DispatchAnswers(codec, faults, v, codec.envelope(line).value, o);
    }
  }

  /** A health report on a connection shows the daemon as the lines before it have left it: on a
      calm connection the answer to a get_health frame stands behind those to the non-empty
      lines before, and holds the state and the agents of the fold of their operations. */
  lemma ReportShowsNow(
      codec: Codec, faults: Faults, wx: Weather<Outside>, v: View, a: seq<Bytes>, line: Bytes, b: seq<Bytes>)
    requires Calm(wx) && line != []
    requires codec.envelope(line).Some? && codec.envelope(line).value.msgType == "get_health"
    ensures var h := HandlingOf(codec, faults);
      var sent := Serve(h, wx, v, a + [line] + b, 0, 0).1;
      var now := Fold(h, v, Operations(h, wx, a, 0));
      && |NonEmpty(a)| < |sent|
      && sent[|NonEmpty(a)|] == Health(HealthPayload(now.state, now.agents))
  {
    hide Dispatch, Serve, Operations, Fold, NonEmpty;
    var h := HandlingOf(codec, faults);
    OneResponseEach(h, wx, v, a, line, b);
    StateIsFold(h, wx, v, a, 0, 0);
    HealthShowsNow(codec, faults, Serve(h, wx, v, a, 0, 0).0, codec.envelope(line).value, wx.outside(|a|));
  }
}
