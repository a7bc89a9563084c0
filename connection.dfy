/**
 * One client connection answered by the proxy while the real server is not
 * online. The same loop appears twice in the program: `serve` answers with
 * the configured messages and the last known server status, the older
 * `status_server` with fixed labels. `Policy` tells the two apart.
 *
 * `Handle` says what one packet does, `Session` what a whole connection
 * does given the reads its socket will return, `Converse` what it does
 * given the packets the client sends; `RunSession` is the loop itself.
 */
module Connection {
  import opened Wrappers
  import opened Protocol
  import opened Settings
  import opened Framing
  import opened Server

  /** The fixed labels of `status_server`. */
  datatype Labels = Labels(starting: string, sleeping: string, startingMessage: string)

  datatype Policy =
    /** `serve`: messages from the configuration. */
    | Current(config: Config)
    /** `status_server`: fixed labels and a fixed version. */
    | Legacy(labels: Labels)

  /** A connection's protocol state (`Client`); a new client is in the handshake state. */
  class Client {
    var state: ClientState

    constructor ()
      ensures state == Handshake
    {
      state := Handshake;
    }
  }

  /** What the proxy writes back. */
  datatype Reply =
    | Disconnect(reason: string)
    | StatusResponse(status: ServerStatus)
    /** The ping frame, sent back byte for byte. */
    | Pong(raw: seq<byte>)

  /** How the connection task ends: closed normally, or by the panic of an unknown next state. */
  datatype Ending = Shutdown | Panicked

  datatype Action =
    /** Answer a login with a disconnect and wake the server; ends the connection. */
    | Kick
    /** The handshake did not decode; ends the connection. */
    | Close
    /** The handshake names an unknown next state. */
    | Crash
    | AnswerStatus
    | Echo
    | Ignore

  datatype Verdict = Verdict(state: ClientState, action: Action)

  /**
   * The chain of checks one packet goes through. A handshake that moves to
   * the status state falls through to the status check with the same packet,
   * whose id is also 0, and so is answered with a status response itself.
   * `decode` stands for `Handshake::decode` and yields its `next_state`.
   */
  function Dispatch(cs: ClientState, p: RawPacket, decode: seq<byte> -> Option<int>): (v: Verdict)
    ensures v.action == Kick <==> cs == Login && p.id == LOGIN_PACKET_ID_LOGIN_START
    ensures v.action == Close <==> cs == Handshake && p.id == STATUS_PACKET_ID_STATUS && decode(p.data).None?
    ensures v.action == Crash <==>
      && cs == Handshake && p.id == STATUS_PACKET_ID_STATUS
      && decode(p.data).Some? && ClientStateFromId(decode(p.data).value).None?
    ensures v.action == AnswerStatus <==>
      p.id == STATUS_PACKET_ID_STATUS && (cs == Status || (cs == Handshake && decode(p.data) == Some(1)))
    ensures v.action == Echo <==> cs == Status && p.id == STATUS_PACKET_ID_PING
    ensures v.state != cs ==>
      && cs == Handshake && p.id == STATUS_PACKET_ID_STATUS && decode(p.data).Some?
      && ClientStateFromId(decode(p.data).value) == Some(v.state)
    ensures (cs == Handshake && p.id == STATUS_PACKET_ID_STATUS && decode(p.data).Some?
      && ClientStateFromId(decode(p.data).value).Some?) ==> v.state == ClientStateFromId(decode(p.data).value).value
  {
    if cs == Login && p.id == LOGIN_PACKET_ID_LOGIN_START then Verdict(cs, Kick)
    else
      var handshake := cs == Handshake && p.id == STATUS_PACKET_ID_STATUS;
      if handshake && decode(p.data).None? then Verdict(cs, Close)
      else if handshake && ClientStateFromId(decode(p.data).value).None? then Verdict(cs, Crash)
      else
        var next := if handshake then ClientStateFromId(decode(p.data).value).value else cs;
        if next == Status && p.id == STATUS_PACKET_ID_STATUS then Verdict(next, AnswerStatus)
        else if next == Status && p.id == STATUS_PACKET_ID_PING then Verdict(next, Echo)
        else Verdict(next, Ignore)
  }

  /**
   * The status the proxy advertises: never a player online, no sample, a
   * description that tells whether the server is starting, and the version
   * and player limit of the last known status when `serve` has one.
   */
  function StatusFor(policy: Policy, server: Lifecycle): (r: ServerStatus)
    ensures r.players.online == 0 && r.players.sample == []
    ensures server.starting ==> r.description == (if policy.Current? then policy.config.motdStarting else policy.labels.starting)
    ensures !server.starting ==> r.description == (if policy.Current? then policy.config.motdSleeping else policy.labels.sleeping)
    ensures policy.Current? && server.status.Some? ==>
      r.version == server.status.value.version && r.players.max == server.status.value.players.max
    ensures policy.Legacy? || server.status.None? ==>
      r.version == ServerVersion(PROTO_DEFAULT_VERSION, PROTO_DEFAULT_PROTOCOL) && r.players.max == 0
  {
    match policy
    case Current(config) =>
      var (version, max) := match server.status
        case Some(status) => (status.version, status.players.max)
        case None => (ServerVersion(PROTO_DEFAULT_VERSION, PROTO_DEFAULT_PROTOCOL), 0);
      var description := if server.starting then config.motdStarting else config.motdSleeping;
      ServerStatus(version, description, OnlinePlayers(0, max, []))
    case Legacy(labels) =>
      var description := if server.starting then labels.starting else labels.sleeping;
      ServerStatus(ServerVersion("1.16.5", 754), description, OnlinePlayers(0, 0, []))
  }

  function KickReason(policy: Policy): string
  {
    match policy
    case Current(config) => config.loginStarting
    case Legacy(labels) => labels.startingMessage
  }

  /**
   * What a login does to the server: `serve` calls `start_server`;
   * `status_server` only raises `starting` and spawns the start itself.
   * Either way exactly one of the logins that meet a server not yet starting
   * starts it.
   */
  function LoginEffect(policy: Policy, s: Lifecycle, now: Instant): (r: Step)
    ensures r.done <==> !s.starting
    ensures r.state.starting
    ensures !r.done ==> r.state == s
    ensures r.done ==> r.state == s.(starting := true, lastActive := if policy.Current? then Some(now) else s.lastActive)
  {
    match policy
    case Current(_) => Started(s, now)
    case Legacy(_) => if s.starting then Step(s, false) else Step(s.(starting := true), true)
  }

  /** The result of one packet; `ending` is set when the loop stops after it. */
  datatype Turn = Turn(replies: seq<Reply>, server: Lifecycle, state: ClientState, ending: Option<Ending>)

  function Handle(policy: Policy, cs: ClientState, server: Lifecycle, p: RawPacket, raw: seq<byte>,
                  decode: seq<byte> -> Option<int>, now: Instant): (t: Turn)
    ensures t.ending.None? ==> t.server == server
    ensures t.ending.None? ==> t.replies == [] || (|t.replies| == 1 && !t.replies[0].Disconnect?)
    ensures t.server != server ==> t.replies == [Disconnect(KickReason(policy))] && t.ending == Some(Shutdown)
    ensures t.server == server || t.server == LoginEffect(policy, server, now).state
    ensures |t.replies| <= 1
    ensures t.state == Dispatch(cs, p, decode).state
    ensures Dispatch(cs, p, decode).action == Kick ==>
      t.replies == [Disconnect(KickReason(policy))] && t.server == LoginEffect(policy, server, now).state
      && t.ending == Some(Shutdown)
    ensures Dispatch(cs, p, decode).action == Close ==> t.replies == [] && t.server == server && t.ending == Some(Shutdown)
    ensures Dispatch(cs, p, decode).action == Crash ==> t.replies == [] && t.server == server && t.ending == Some(Panicked)
    ensures Dispatch(cs, p, decode).action == AnswerStatus ==>
      t.replies == [StatusResponse(StatusFor(policy, server))] && t.server == server && t.ending.None?
    ensures Dispatch(cs, p, decode).action == Echo ==> t.replies == [Pong(raw)] && t.server == server && t.ending.None?
    ensures Dispatch(cs, p, decode).action == Ignore ==> t.replies == [] && t.server == server && t.ending.None?
  {
    var v := Dispatch(cs, p, decode);
    match v.action
    case Kick => Turn([Disconnect(KickReason(policy))], LoginEffect(policy, server, now).state, v.state, Some(Shutdown))
    case Close => Turn([], server, v.state, Some(Shutdown))
    case Crash => Turn([], server, v.state, Some(Panicked))
    case AnswerStatus => Turn([StatusResponse(StatusFor(policy, server))], server, v.state, None)
    case Echo => Turn([Pong(raw)], server, v.state, None)
    case Ignore => Turn([], server, v.state, None)
  }

  /** Everything a connection did, and what it left of its socket. */
  datatype Outcome = Outcome(replies: seq<Reply>, server: Lifecycle, state: ClientState,
                             buf: seq<byte>, rest: seq<Chunk>, ending: Ending)

  function Prepend(replies: seq<Reply>, o: Outcome): Outcome
  {
    o.(replies := replies + o.replies)
  }

  /**
   * The connection loop over the reads its socket returns: read a packet
   * and handle it until the connection closes, fails, or a packet ends it.
   */
  function Session(policy: Policy, cs: ClientState, server: Lifecycle, buf: seq<byte>, stream: seq<Chunk>,
                   decode: seq<byte> -> Option<int>, now: Instant): (o: Outcome)
    decreases |stream|, |buf|
    ensures SuffixOf(o.rest, stream)
    ensures o.server == server || o.server == LoginEffect(policy, server, now).state
  {
    var r := ReadPacketSpec(buf, stream);
    if !r.outcome.Packet? then Outcome([], server, cs, r.buf, r.rest, Shutdown)
    else
      var t := Handle(policy, cs, server, r.outcome.packet, r.outcome.raw, decode, now);
      if t.ending.Some? then Outcome(t.replies, t.server, t.state, r.buf, r.rest, t.ending.value)
      else
        ReadPacketProgress(buf, stream);
        var later := Session(policy, t.state, t.server, r.buf, r.rest, decode, now);
        ConsumedAppend(stream, r.rest, later.rest);
        Prepend(t.replies, later)
  }

  /** One turn of the loop: a packet either ends the connection or leaves the rest of it to run. */
  lemma SessionStep(policy: Policy, cs: ClientState, server: Lifecycle, buf: seq<byte>, stream: seq<Chunk>,
                    decode: seq<byte> -> Option<int>, now: Instant, r: Read, t: Turn)
    requires r == ReadPacketSpec(buf, stream) && r.outcome.Packet?
    requires t == Handle(policy, cs, server, r.outcome.packet, r.outcome.raw, decode, now)
    ensures Session(policy, cs, server, buf, stream, decode, now) ==
      if t.ending.Some? then Outcome(t.replies, t.server, t.state, r.buf, r.rest, t.ending.value)
      else Prepend(t.replies, Session(policy, t.state, t.server, r.buf, r.rest, decode, now))
  {
  }

  lemma SessionEnd(policy: Policy, cs: ClientState, server: Lifecycle, buf: seq<byte>, stream: seq<Chunk>,
                   decode: seq<byte> -> Option<int>, now: Instant, r: Read)
    requires r == ReadPacketSpec(buf, stream) && !r.outcome.Packet?
    ensures Session(policy, cs, server, buf, stream, decode, now) == Outcome([], server, cs, r.buf, r.rest, Shutdown)
  {
  }

  lemma PrependTwice(a: seq<Reply>, b: seq<Reply>, o: Outcome)
    ensures Prepend(a, Prepend(b, o)) == Prepend(a + b, o)
  {
    assert a + (b + o.replies) == (a + b) + o.replies;
  }

  // ---------------------------------------------------------------------------
  // The connection as a conversation of packets

  /** Packets whose frames have a length prefix of at most two bytes. */
  predicate Small(p: RawPacket)
  {
    |p.data| <= MAX_PACKET_DATA && |EncodeVarInt(p.id)| + |p.data| < 0x4000
  }

  /** What a client sends: its packets' frames back to back. */
  function Frames(ps: seq<RawPacket>): seq<byte>
    requires forall i :: 0 <= i < |ps| ==> Small(ps[i])
  {
    if ps == [] then [] else assert Small(ps[0]); EncodeRawPacket(ps[0]) + Frames(ps[1..])
  }

  /** Everything a connection does, by packet. */
  datatype Talk = Talk(replies: seq<Reply>, server: Lifecycle, state: ClientState, ending: Ending)

  /** The connection as a sequence of packets, independent of how they arrive. */
  function Converse(policy: Policy, cs: ClientState, server: Lifecycle, ps: seq<RawPacket>,
                    decode: seq<byte> -> Option<int>, now: Instant): Talk
    requires forall i :: 0 <= i < |ps| ==> Small(ps[i])
    decreases |ps|
  {
    if ps == [] then Talk([], server, cs, Shutdown)
    else
      assert Small(ps[0]);
      var t := Handle(policy, cs, server, ps[0], EncodeRawPacket(ps[0]), decode, now);
      if t.ending.Some? then Talk(t.replies, t.server, t.state, t.ending.value)
      else
        var later := Converse(policy, t.state, t.server, ps[1..], decode, now);
        later.(replies := t.replies + later.replies)
  }

  /**
   * However the client's frames are cut into reads, the connection answers
   * exactly as the packets they encode call for.
   */
  lemma {:induction false} SessionOfFrames(policy: Policy, cs: ClientState, server: Lifecycle, buf: seq<byte>,
                                           stream: seq<Chunk>, ps: seq<RawPacket>,
                                           decode: seq<byte> -> Option<int>, now: Instant)
    requires forall i :: 0 <= i < |ps| ==> Small(ps[i])
    requires AllData(stream)
    requires buf + Bytes(stream) == Frames(ps)
    ensures var o := Session(policy, cs, server, buf, stream, decode, now);
      Talk(o.replies, o.server, o.state, o.ending) == Converse(policy, cs, server, ps, decode, now)
    decreases |ps|
  {
    if ps == [] {
      assert buf == [];
      DrainedCloses(stream);
    } else {
      var p := ps[0];
      ReadsEncodedPacket(buf, stream, p, Frames(ps[1..]));
      var r := ReadPacketSpec(buf, stream);
      SuffixAllData(r.rest, stream);
      var t := Handle(policy, cs, server, p, EncodeRawPacket(p), decode, now);
      if t.ending.None? {
        SessionOfFrames(policy, t.state, t.server, r.buf, r.rest, ps[1..], decode, now);
      }
    }
  }

  /**
   * A server-list ping: handshake into the status state, status request,
   * ping. The handshake is answered with a status response of its own, so
   * the client receives two, then its ping back unchanged.
   */
  lemma {:induction false} StatusPingExchange(policy: Policy, server: Lifecycle, hs: RawPacket, request: RawPacket,
                                              ping: RawPacket, decode: seq<byte> -> Option<int>, now: Instant)
    requires Small(hs) && Small(request) && Small(ping)
    requires hs.id == STATUS_PACKET_ID_STATUS && decode(hs.data) == Some(1)
    requires request.id == STATUS_PACKET_ID_STATUS && ping.id == STATUS_PACKET_ID_PING
    ensures var answer := StatusResponse(StatusFor(policy, server));
      Converse(policy, Handshake, server, [hs, request, ping], decode, now)
        == Talk([answer, answer, Pong(EncodeRawPacket(ping))], server, Status, Shutdown)
  {
    var answer := StatusResponse(StatusFor(policy, server));
    var ps := [hs, request, ping];
    assert ps[1..] == [request, ping] && ps[1..][1..] == [ping] && ps[1..][1..][1..] == [];
    assert [ping][1..] == [];
    assert Dispatch(Status, ping, decode).action == Echo;
    assert Handle(policy, Status, server, ping, EncodeRawPacket(ping), decode, now)
      == Turn([Pong(EncodeRawPacket(ping))], server, Status, None);
    assert Converse(policy, Status, server, [], decode, now) == Talk([], server, Status, Shutdown);
    var last := Converse(policy, Status, server, [ping], decode, now);
    assert last.replies == [Pong(EncodeRawPacket(ping))] + [];
    assert last == Talk([Pong(EncodeRawPacket(ping))], server, Status, Shutdown);
    var middle := Converse(policy, Status, server, [request, ping], decode, now);
    assert middle == Talk([answer, Pong(EncodeRawPacket(ping))], server, Status, Shutdown);
  }

  /** A login attempt: handshake into the login state, then login start, answered by a disconnect. */
  lemma {:induction false} LoginAttempt(policy: Policy, server: Lifecycle, hs: RawPacket, login: RawPacket,
                                        decode: seq<byte> -> Option<int>, now: Instant)
    requires Small(hs) && Small(login)
    requires hs.id == STATUS_PACKET_ID_STATUS && decode(hs.data) == Some(2)
    requires login.id == LOGIN_PACKET_ID_LOGIN_START
    ensures Converse(policy, Handshake, server, [hs, login], decode, now)
      == Talk([Disconnect(KickReason(policy))], LoginEffect(policy, server, now).state, Login, Shutdown)
  {
    var ps := [hs, login];
    assert ps[1..] == [login];
    assert Converse(policy, Login, server, [login], decode, now)
      == Talk([Disconnect(KickReason(policy))], LoginEffect(policy, server, now).state, Login, Shutdown);
  }

  /** A handshake naming a state other than status or login ends the task in a panic, unanswered. */
  lemma UnknownNextStatePanics(policy: Policy, server: Lifecycle, hs: RawPacket, more: seq<RawPacket>,
                               decode: seq<byte> -> Option<int>, now: Instant)
    requires Small(hs) && forall i :: 0 <= i < |more| ==> Small(more[i])
    requires hs.id == STATUS_PACKET_ID_STATUS && decode(hs.data).Some?
    requires decode(hs.data).value != 1 && decode(hs.data).value != 2
    ensures Converse(policy, Handshake, server, [hs] + more, decode, now) == Talk([], server, Handshake, Panicked)
  {
    assert ([hs] + more)[0] == hs;
  }

  /** No reply but the last is a disconnect. */
  ghost predicate DisconnectLast(replies: seq<Reply>)
  {
    forall i :: 0 <= i < |replies| - 1 ==> !replies[i].Disconnect?
  }

  /** What a connection may do to the server: nothing, or a login's effect announced by its last reply. */
  ghost predicate ServerTouchedByLogin(policy: Policy, server: Lifecycle, now: Instant, o: Outcome)
  {
    && (o.server == server || o.server == LoginEffect(policy, server, now).state)
    && (o.server != server ==> o.replies != [] && o.replies[|o.replies| - 1] == Disconnect(KickReason(policy)))
  }

  /**
   * The server state changes only through a login, which is answered by a
   * disconnect and ends the connection: a disconnect is always the last reply.
   */
  lemma {:induction false} OnlyLoginTouchesServer(policy: Policy, cs: ClientState, server: Lifecycle, buf: seq<byte>,
                                                  stream: seq<Chunk>, decode: seq<byte> -> Option<int>, now: Instant)
    ensures ServerTouchedByLogin(policy, server, now, Session(policy, cs, server, buf, stream, decode, now))
    ensures DisconnectLast(Session(policy, cs, server, buf, stream, decode, now).replies)
    decreases |stream|, |buf|
  {
    var r := ReadPacketSpec(buf, stream);
    if r.outcome.Packet? {
      var t := Handle(policy, cs, server, r.outcome.packet, r.outcome.raw, decode, now);
      SessionStep(policy, cs, server, buf, stream, decode, now, r, t);
      if t.ending.None? {
        ReadPacketProgress(buf, stream);
        var later := Session(policy, t.state, t.server, r.buf, r.rest, decode, now);
        OnlyLoginTouchesServer(policy, t.state, t.server, r.buf, r.rest, decode, now);
        AnswerBeforeLater(t.replies, later.replies);
        PrependKeepsServer(policy, server, now, t.replies, later);
      }
    } else {
      SessionEnd(policy, cs, server, buf, stream, decode, now, r);
    }
  }

  lemma PrependKeepsServer(policy: Policy, server: Lifecycle, now: Instant, first: seq<Reply>, later: Outcome)
    requires ServerTouchedByLogin(policy, server, now, later)
    ensures ServerTouchedByLogin(policy, server, now, Prepend(first, later))
  {
    if later.server != server {
      assert Prepend(first, later).replies[|Prepend(first, later).replies| - 1] == later.replies[|later.replies| - 1];
    }
  }

  lemma AnswerBeforeLater(first: seq<Reply>, later: seq<Reply>)
    requires first == [] || (|first| == 1 && !first[0].Disconnect?)
    requires DisconnectLast(later)
    ensures DisconnectLast(first + later)
    ensures later != [] ==> (first + later)[|first + later| - 1] == later[|later| - 1]
  {
  }

  // ---------------------------------------------------------------------------
  // The loop

  /** The login branch's call into the server state. */
  method LoginStart(policy: Policy, server: ServerState, now: Instant) returns (spawned: bool)
    modifies server
    ensures Step(server.Snapshot(), spawned) == LoginEffect(policy, old(server.Snapshot()), now)
  {
    match policy
    case Current(_) =>
      // Only the first login wakes the server
      spawned := StartServer(server, now);
    case Legacy(_) =>
      // Only the first login wakes the server
      spawned := false;
      if !server.starting {
        server.starting := true;
        spawned := true;
      }
  }

  /**
   * The chain of checks in the loop body for one packet; `stop` is set when
   * the loop ends after it.
   */
  method HandlePacket(policy: Policy, client: Client, server: ServerState, packet: RawPacket, raw: seq<byte>,
                      decode: seq<byte> -> Option<int>, now: Instant)
    returns (reply: seq<Reply>, stop: Option<Ending>)
    modifies client, server
    ensures Turn(reply, server.Snapshot(), client.state, stop)
      == Handle(policy, old(client.state), old(server.Snapshot()), packet, raw, decode, now)
  {
    // A login start is answered with the kick
    if client.state == Login && packet.id == LOGIN_PACKET_ID_LOGIN_START {
      var spawned := LoginStart(policy, server, now);
      return [Disconnect(KickReason(policy))], Some(Shutdown);
    }

    // The handshake moves the client to its next state
    if client.state == Handshake && packet.id == STATUS_PACKET_ID_STATUS {
      var handshake := decode(packet.data);
      if handshake.None? {
        return [], Some(Shutdown);
      }
      var next := ClientStateFromId(handshake.value);
      if next.None? {
        // The next state names no client state: the task panics
        return [], Some(Panicked);
      }
      client.state := next.value;
    }

    // A status request is answered with the advertised status
    if client.state == Status && packet.id == STATUS_PACKET_ID_STATUS {
      return [StatusResponse(StatusFor(policy, server.Snapshot()))], None;
    }

    // A ping is echoed
    if client.state == Status && packet.id == STATUS_PACKET_ID_PING {
      return [Pong(raw)], None;
    }

    // Anything else is ignored
    return [], None;
  }

  /** One turn of the loop: read a packet and run it through the chain of checks. */
  method ServePacket(policy: Policy, client: Client, inbound: Inbound, server: ServerState,
                     decode: seq<byte> -> Option<int>, now: Instant)
    returns (reply: seq<Reply>, stop: Option<Ending>)
    modifies client, inbound, server
    ensures stop.Some? ==>
      Session(policy, old(client.state), old(server.Snapshot()), old(inbound.buf), old(inbound.stream), decode, now)
        == Outcome(reply, server.Snapshot(), client.state, inbound.buf, inbound.stream, stop.value)
    ensures stop.None? ==>
      Session(policy, old(client.state), old(server.Snapshot()), old(inbound.buf), old(inbound.stream), decode, now)
        == Prepend(reply, Session(policy, client.state, server.Snapshot(), inbound.buf, inbound.stream, decode, now))
    ensures stop.None? ==>
      (|inbound.stream| < old(|inbound.stream|) || (|inbound.stream| == old(|inbound.stream|) && |inbound.buf| < old(|inbound.buf|)))
  {
    ghost var cs, srv, buf, stream := client.state, server.Snapshot(), inbound.buf, inbound.stream;
    ReadPacketProgress(buf, stream);

    // The next frame off the socket
    var read := inbound.ReadPacket();
    ghost var r := Read(read, inbound.buf, inbound.stream);
    if !read.Packet? {
      SessionEnd(policy, cs, srv, buf, stream, decode, now, r);
      return [], Some(Shutdown);
    }
    reply, stop := HandlePacket(policy, client, server, read.packet, read.raw, decode, now);
    SessionStep(policy, cs, srv, buf, stream, decode, now, r, Turn(reply, server.Snapshot(), client.state, stop));
  }

  /** The shared loop of `serve` and `status_server`, writes always succeeding. */
  method RunSession(policy: Policy, client: Client, inbound: Inbound, server: ServerState,
                    decode: seq<byte> -> Option<int>, now: Instant)
    returns (replies: seq<Reply>, ending: Ending)
    modifies client, inbound, server
    ensures Outcome(replies, server.Snapshot(), client.state, inbound.buf, inbound.stream, ending)
      == Session(policy, old(client.state), old(server.Snapshot()), old(inbound.buf), old(inbound.stream), decode, now)
  {
    ghost var whole := Session(policy, client.state, server.Snapshot(), inbound.buf, inbound.stream, decode, now);
    replies := [];
    while true
      invariant whole == Prepend(replies, Session(policy, client.state, server.Snapshot(), inbound.buf, inbound.stream, decode, now))
      decreases |inbound.stream|, |inbound.buf|
    {
      var reply, stop := ServePacket(policy, client, inbound, server, decode, now);
      if stop.Some? {
        replies := replies + reply;
        return replies, stop.value;
      }
      PrependTwice(replies, reply, Session(policy, client.state, server.Snapshot(), inbound.buf, inbound.stream, decode, now));
      replies := replies + reply;
    }
  }
}
