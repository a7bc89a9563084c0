/**
 * `serve`: the status service the proxy runs for a connection while the
 * real server sleeps, answering with the configured messages.
 */
module StatusService {
  import opened Wrappers
  import opened Protocol
  import opened Settings
  import opened Framing
  import opened Server
  import opened Connection

  method Serve(client: Client, inbound: Inbound, config: Config, server: ServerState,
               decode: seq<byte> -> Option<int>, now: Instant)
    returns (replies: seq<Reply>, ending: Ending)
    modifies client, inbound, server
    ensures Outcome(replies, server.Snapshot(), client.state, inbound.buf, inbound.stream, ending)
      == Session(Current(config), old(client.state), old(server.Snapshot()), old(inbound.buf), old(inbound.stream), decode, now)
  {
    replies, ending := RunSession(Current(config), client, inbound, server, decode, now);
  }

  /**
   * A server-list ping answered by `serve` reports the version and player
   * limit of the last status seen from the real server, nobody online, and
   * the starting or the sleeping message.
   */
  lemma {:induction false} ServeReportsLastStatus(config: Config, server: Lifecycle, hs: RawPacket, request: RawPacket,
                                                  ping: RawPacket, decode: seq<byte> -> Option<int>, now: Instant)
    requires Small(hs) && Small(request) && Small(ping)
    requires hs.id == STATUS_PACKET_ID_STATUS && decode(hs.data) == Some(1)
    requires request.id == STATUS_PACKET_ID_STATUS && ping.id == STATUS_PACKET_ID_PING
    requires server.status.Some?
    ensures var talk := Converse(Current(config), Handshake, server, [hs, request, ping], decode, now);
      && |talk.replies| == 3
      && talk.replies[1].StatusResponse?
      && talk.replies[1].status.version == server.status.value.version
      && talk.replies[1].status.players == OnlinePlayers(0, server.status.value.players.max, [])
      && talk.replies[1].status.description == (if server.starting then config.motdStarting else config.motdSleeping)
      && talk.server == server
  {
    StatusPingExchange(Current(config), server, hs, request, ping, decode, now);
  }

  /**
   * A login to `serve` while the server sleeps starts it, once: the state
   * records the start and the time of the login, and the client is told
   * the configured starting message.
   */
  lemma {:induction false} ServeStartsServer(config: Config, server: Lifecycle, hs: RawPacket, login: RawPacket,
                                             decode: seq<byte> -> Option<int>, now: Instant)
    requires Small(hs) && Small(login)
    requires hs.id == STATUS_PACKET_ID_STATUS && decode(hs.data) == Some(2)
    requires login.id == LOGIN_PACKET_ID_LOGIN_START
    requires !server.starting
    ensures var talk := Converse(Current(config), Handshake, server, [hs, login], decode, now);
      && talk.replies == [Disconnect(config.loginStarting)]
      && talk.server == server.(starting := true, lastActive := Some(now))
      && talk.ending == Shutdown
  {
    LoginAttempt(Current(config), server, hs, login, decode, now);
  }
}
