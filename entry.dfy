/**
 * The program's entry: every accepted connection goes to the status
 * service while the server is not online and to the proxy otherwise; the
 * older status service `status_server` answers with fixed labels.
 */
module Entry {
  import opened Wrappers
  import opened Protocol
  import opened Settings
  import opened Framing
  import opened Server
  import opened Connection

  datatype Destination = ToStatusServer | ToProxy

  /** Where an accepted connection goes, by the server state at that moment. */
  function Route(s: Lifecycle): (d: Destination)
    ensures d == ToProxy <==> s.online
  {
    if !s.online then ToStatusServer else ToProxy
  }

  /** The routing decision of the accept loop for one connection. */
  method Accept(server: ServerState) returns (d: Destination)
    ensures d == ToProxy <==> server.online
    ensures d == Route(server.Snapshot())
  {
    if !server.online {
      // An offline server is stood in for
      d := ToStatusServer;
    } else {
      // An online server gets the connection
      d := ToProxy;
    }
  }

  /**
   * Connections are proxied only after a poll has seen the server answer
   * while it was not stopping, and a stop request or an exit sends them
   * back to the status service at once.
   */
  lemma ProxiedOnlyAfterPoll(s: Lifecycle, cfg: Config, status: Option<ServerStatus>, now: Instant)
    ensures Route(StatusUpdated(s, cfg, status, now)) == ToProxy <==> status.Some? && !s.stopping
    ensures Route(Exited(s)) == ToStatusServer
    ensures forall rcon :: Killed(s, cfg, rcon).done() ==> Route(Killed(s, cfg, rcon).state) == ToStatusServer
  {
  }

  /** No state reachable from the initial one proxies a connection to a server that is stopping. */
  lemma {:induction false} StoppingNeverProxied(cfg: Config, trace: seq<Timed>)
    ensures var s := Run(Initial, cfg, trace);
      s.stopping ==> Route(s) == ToStatusServer
  {
    RunConsistent(Initial, cfg, trace);
  }

  method StatusServer(labels: Labels, client: Client, inbound: Inbound, server: ServerState,
                      decode: seq<byte> -> Option<int>, now: Instant)
    returns (replies: seq<Reply>, ending: Ending)
    modifies client, inbound, server
    ensures Outcome(replies, server.Snapshot(), client.state, inbound.buf, inbound.stream, ending)
      == Session(Legacy(labels), old(client.state), old(server.Snapshot()), old(inbound.buf), old(inbound.stream), decode, now)
  {
    replies, ending := RunSession(Legacy(labels), client, inbound, server, decode, now);
  }

  /**
   * `status_server` always reports version 1.16.5 with protocol 754 and no
   * player limit, whatever the real server last reported.
   */
  lemma {:induction false} StatusServerReportsFixedVersion(labels: Labels, server: Lifecycle, hs: RawPacket,
                                                           request: RawPacket, ping: RawPacket,
                                                           decode: seq<byte> -> Option<int>, now: Instant)
    requires Small(hs) && Small(request) && Small(ping)
    requires hs.id == STATUS_PACKET_ID_STATUS && decode(hs.data) == Some(1)
    requires request.id == STATUS_PACKET_ID_STATUS && ping.id == STATUS_PACKET_ID_PING
    ensures var talk := Converse(Legacy(labels), Handshake, server, [hs, request, ping], decode, now);
      && |talk.replies| == 3
      && talk.replies[1].StatusResponse?
      && talk.replies[1].status.version == ServerVersion("1.16.5", 754)
      && talk.replies[1].status.players == OnlinePlayers(0, 0, [])
  {
    StatusPingExchange(Legacy(labels), server, hs, request, ping, decode, now);
  }

  /**
   * A login to `status_server` while the server sleeps raises `starting`
   * and nothing else, and tells the client the fixed starting message.
   */
  lemma {:induction false} StatusServerStartsServer(labels: Labels, server: Lifecycle, hs: RawPacket, login: RawPacket,
                                                    decode: seq<byte> -> Option<int>, now: Instant)
    requires Small(hs) && Small(login)
    requires hs.id == STATUS_PACKET_ID_STATUS && decode(hs.data) == Some(2)
    requires login.id == LOGIN_PACKET_ID_LOGIN_START
    requires !server.starting
    ensures var talk := Converse(Legacy(labels), Handshake, server, [hs, login], decode, now);
      && talk.replies == [Disconnect(labels.startingMessage)]
      && talk.server == server.(starting := true)
  {
    LoginAttempt(Legacy(labels), server, hs, login, decode, now);
  }
}
