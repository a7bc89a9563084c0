# lazymc core, modelled in Dafny

lazymc is a proxy that stands in front of a Minecraft server. It puts the
server to sleep when nobody plays and starts it again when someone tries to
log in. While the server is not online, the proxy answers clients itself:
- It answers server-list pings with a status that says the server is sleeping or starting.
- It answers a login with a "server is starting" disconnect, and starts the server.

This project models three parts of that core:

- **The shared server state** (`src/server.rs`), in `server.dfy`.
  - `Lifecycle` is the state as a value. The functions on it say what each operation does to it.
  - The class `Server.ServerState` holds the state as fields. Its methods are proved against those functions.
  - Covered: status polls, the sleep rule, the minimum online time, starting the server, launching and reaping the process, and stopping it through RCON or a signal.
  - Runs of events (`Run`) carry the properties that span several operations: at most one start per process lifetime, the consistency invariant, and the minimum online time.
- **Packet framing** (`read_packet`, `src/main.rs`), in `protocol.dfy` and `framing.dfy`.
  - The socket is the sequence of chunks its reads return.
  - The class `Framing.Inbound` holds the buffer and the socket. Its two buffering loops are proved against `FillTo`, and `ReadPacket` against `ReadPacketSpec`.
- **The status connection loop** (`serve` in `src/status.rs`, `status_server` and the accept routing in `src/main.rs`), in `connection.dfy`, `status.dfy` and `entry.dfy`.
  - Both loops run the same chain of checks. `Connection.Policy` selects the configured messages (`serve`) or the fixed labels (`status_server`).
  - `RunSession` is proved against `Session`, which is defined over the socket's reads.
  - `SessionOfFrames` proves that `Session` equals `Converse`, which is defined over the client's packets, however the bytes are cut into reads.

Conventions of the model:
- Time is an `Instant` in nanoseconds. The caller passes `now` wherever the source reads the clock.
- The handshake decoder is a function parameter that returns the handshake's `next_state`.
- Sending the stop signal is modelled as the fact that it was sent: `kill_gracefully`'s own result is ignored by the source, and `Server.Killed` reports `ViaSignal` when the signal went out.
- Starting the process, waiting for it and connecting to RCON are modelled by their outcomes, passed in as parameters. These are:
  - `started`: the process id, or nothing if the launch failed;
  - `rconConnects`: whether the RCON connection could be made;
  - `waitSucceeded`: whether waiting for the process returned.

Behaviours of the source that the model keeps as written:
- **The sleep rule requires `starting`.** In `should_sleep`, the comment says the server "must not be starting". The code returns early when the server is *not* starting (`src/server.rs:171-174`). The model follows the code: `SleepDue` requires `starting`, and `Server.NeverSleepsUnlessStarted` proves that a server no login has started never sleeps.
- **A handshake into the status state gets its own status response.** After the handshake branch sets the status state, the same packet, whose id is 0, reaches the status-request check. A server-list ping therefore receives two status responses before its pong (`Connection.StatusPingExchange`).
- **A long length prefix can be cut short.** The length VarInt is decoded from what the first buffering loop left, which can be only two bytes. A frame whose length prefix needs three bytes, and whose first read brings only two, fails (`Framing.LongLengthPrefixCutShort`).
- **A length field is converted with `as usize`.** A negative length sign-extends to 64 bits and wraps when added (`Framing.FrameSize`). For a length below -5 the wrapped size is near 2^64, so the frame can never be complete and reading it ends in end of stream or an error. A length from -1 to -5 is spelled in five bytes, so the size wraps to between 0 and 4. Those bytes are split off at once and fail to decode, and the rest stays buffered (`Framing.NegativeLengthCutsAtOnce`).
- **A failed launch leaves `starting` raised.** After a failed launch, no later login starts the server. `Server.AtMostOneStart` covers runs without an exit.

## Model

| member | source | states |
|---|---|---|
| Protocol.ClientStateFromId | src/status.rs:66-74 | id 1 is the status state, id 2 the login state, and no other id names a state (the `expect` then panics) |
| Protocol.ReadVarInt | src/main.rs:116-125 | a length prefix is one to five bytes; its last byte is the first one without the continuation bit, and every byte before it carries that bit; decoding fails exactly when the first five available bytes all carry that bit |
| Protocol.EncodeVarInt | src/status.rs:53-54 | a VarInt encoding takes one to five bytes |
| Protocol.EncodeUnsignedLength | src/status.rs:53-54 | a value below 128^k encodes in at most k bytes |
| Protocol.VarIntRoundTrip | src/main.rs:116-125 | decoding an encoded VarInt, whatever follows it, gives back the value and the length of its encoding |
| Protocol.ReadVarIntPrefix | src/main.rs:116-125 | a VarInt decodes the same from any prefix of the buffered bytes that holds it whole |
| Protocol.ReadVarIntCut | src/main.rs:116-125 | a prefix that cuts into the VarInt does not decode |
| Protocol.EncodeRawPacket | src/status.rs:53-54 | a frame is at least two bytes long |
| Protocol.DecodeRawPacket | src/main.rs:146-148 | a frame decodes only if it is at least two bytes long and its length prefix announces a non-negative length that fits in it |
| Protocol.RawPacketRoundTrip | src/main.rs:146-148 | decoding an encoded packet gives it back, whatever follows the frame |
| Framing.FillTo | src/main.rs:97-113 | a buffering loop consumes a prefix of the reads and appends exactly their bytes; it stops with the buffer full exactly when `need` bytes are buffered; it reads nothing when enough is already buffered |
| Framing.FillReadsOnlyWhileShort | src/main.rs:97-113 | every read the buffering loop makes comes while fewer than `need` bytes are buffered, so it reads nothing more once `need` bytes are there |
| Framing.FillStops | src/main.rs:97-113 | while the buffer is short, reads that bring bytes are appended and reading goes on; the first read that brings nothing stops the loop right after it, as end of stream for an empty read or a reset and as a fault for any other error, with the bytes read so far buffered |
| Framing.FillExhausted | src/main.rs:97-113 | a socket that runs out before the buffer is full reads as end of stream, with everything it delivered buffered |
| Framing.FrameSize | src/main.rs:127 | for a non-negative length, a frame is the length prefix plus the announced length |
| Framing.ReadPacketSpec | src/main.rs:93-151 | reading a packet consumes a prefix of the reads, and a returned packet decodes from the returned frame |
| Framing.TakeFrame | src/main.rs:126-150 | the second buffering loop returns a frame of exactly the computed size, which decodes to the returned packet |
| Framing.ReadPacketConserves | src/main.rs:93-151 | no byte is lost or invented: the frame plus the remaining buffer are the old buffer plus the bytes read; at end of stream everything read stays buffered; an error drops at most one frame off the front, and only one that does not decode; a length prefix that does not decode is an error that keeps every byte buffered |
| Framing.ReadPacketProgress | src/main.rs:93-151 | every returned packet uses up input, either reads or buffered bytes |
| Framing.FillAll | src/main.rs:97-113 | while reads keep delivering bytes, buffering ends with the buffer full and the remaining bytes unread |
| Framing.ReadsEncodedPacket | src/main.rs:93-151 | however the bytes are cut into reads, an encoded packet with a body under 16384 bytes comes back whole, and the bytes behind it stay for the next packet |
| Framing.FrameExact | src/main.rs:116-148 | a returned frame is exactly its length prefix plus the length that prefix announces |
| Framing.LongLengthPrefixCutShort | src/main.rs:97-125 | a frame whose length prefix needs three bytes, and whose first read delivers two, fails |
| Framing.NegativeLengthCutsAtOnce | src/main.rs:116-150 | a five-byte length prefix of -1 wraps to a frame of four bytes, which is split off at once, fails to decode, and leaves the fifth byte buffered |
| Framing.LongPrefixContinues | src/main.rs:116-125 | the first two bytes of a frame whose body is 16384 bytes or more both carry the continuation bit |
| Framing.DrainedCloses | src/main.rs:108-110 | with nothing buffered and nothing left to read, the connection reads as closed |
| Framing.Inbound.constructor | src/status.rs:29-32 | a connection starts with an empty buffer |
| Framing.Inbound.Receive | src/main.rs:99-103 | one read takes the next chunk of the socket, and at the end reports end of stream |
| Framing.Inbound.FillBuffer | src/main.rs:97-113 | the buffering loop computes `FillTo` |
| Framing.Inbound.ReadPacket | src/main.rs:93-151 | `read_packet` computes `ReadPacketSpec` on the buffer and the socket |
| Server.SleepDue | src/server.rs:159-193 | a server due to sleep is past its keep-online deadline, has nobody playing, and has been idle for at least `sleep_after` seconds since its last active time |
| Server.Exited | src/server.rs:246-249 | after the process exits, there is no process id and the server is neither online, starting nor stopping; the status, the active time and the deadline stay; the state is consistent |
| Server.KeepOnlineDeadline | src/server.rs:113-118 | a deadline is set exactly for a positive duration, and lies that many seconds after now |
| Server.StatusUpdated | src/server.rs:120-151 | online exactly when a status came in and no stop is under way; the status is replaced only by a new one; going online sets the deadline and the active time; players online set the active time; nothing else changes |
| Server.Started | src/server.rs:197-214 | a start happens exactly when none is under way; afterwards the server is starting; the active time is that of the start |
| Server.RconStopped | src/server.rs:254-293 | an RCON stop succeeds exactly when RCON is enabled and connects; success takes the server offline and clears the deadline |
| Server.SignalStopped | src/server.rs:295-312 | a signal can be sent exactly when the process id is known; success takes the server offline and clears the deadline |
| Server.Killed | src/server.rs:63-91 | RCON stops the server exactly when there is a process and RCON is enabled and connects; the signal is sent exactly when there is a process and RCON is disabled or does not connect; a kill succeeds exactly when there is a process; success marks the server stopping and offline with no deadline; failure changes nothing |
| Server.SplitSpaces | src/server.rs:222-226 | splitting at spaces gives at least one piece, no piece holds a space, and joining the pieces with spaces gives the command back |
| Server.SplitTerminator | src/server.rs:222-226 | the pieces are empty exactly for the empty command; no piece holds a space; for a command ending in a space they join to the command without that space, otherwise to the command itself |
| Server.CommandLine | src/server.rs:221-230 | the command has a program exactly when it is not empty; the program followed by the arguments are its pieces |
| Server.RunConsistent | src/server.rs:63-151 | in every state a run reaches, a stopping server is offline with no deadline, and an online server has an active time |
| Server.AtMostOneStart | src/server.rs:197-214 | however many logins arrive while the process has not exited, at most one of them starts the server, and none if a start was under way |
| Server.StartingPersists | src/server.rs:244-249 | only the exit of the process clears `starting` |
| Server.HeldUntilRun | src/server.rs:128-134 | once the deadline holds an online server up to a point in time, later events at times no earlier than that point minus the minimum online time keep it so |
| Server.MinimumOnlineTime | src/server.rs:128-134 | once a poll sees the server come online, no later state is due to sleep before the minimum online time has passed |
| Server.SleepStaysDue | src/server.rs:159-194 | once the server is due to sleep, it stays due as time passes |
| Server.StatusNeverCleared | src/server.rs:27-31 | once a status has been seen, it stays known whatever happens |
| Server.NeverSleepsUnlessStarted | src/server.rs:171-174 | a server that no login has started is never due to sleep |
| Server.ServerState.constructor | src/server.rs:11-40 | a new state is offline, not starting, not stopping, with nothing recorded |
| Server.ServerState.UpdateLastActiveTime | src/server.rs:108-111 | records now as the active time and changes nothing else |
| Server.ServerState.SetKeepOnlineUntil | src/server.rs:113-118 | stores `KeepOnlineDeadline` and changes nothing else |
| Server.ServerState.UpdateStatus | src/server.rs:120-151 | the new state is `StatusUpdated` of the old one |
| Server.ServerState.ShouldSleep | src/server.rs:153-194 | the answer is exactly the sleep rule `SleepDue` |
| Server.ServerState.KillServer | src/server.rs:63-91 | the new state and the mechanism that stopped the server are `Killed` of the old state, and the result is whether it was stopped |
| Server.StartServer | src/server.rs:197-214 | the result and the new state are `Started` of the old state |
| Server.InvokeServerCommand | src/server.rs:216-239 | launching fails exactly for an empty command or a failed spawn, and then changes nothing; otherwise it runs the command's pieces and records the process id |
| Server.ServerExited | src/server.rs:241-251 | once waiting returns, the process id is cleared and the server is neither online, starting nor stopping; if waiting fails, nothing changes |
| Server.StopServerRcon | src/server.rs:254-293 | the result and the new state are `RconStopped` of the old state |
| Server.StopServerSignal | src/server.rs:295-312 | the result and the new state are `SignalStopped` of the old state |
| Connection.Client.constructor | src/main.rs:66 | a new client is in the handshake state |
| Connection.Dispatch | src/status.rs:45-128 | a login start in the login state is kicked; a handshake that does not decode closes the connection and one naming an unknown state panics; id 0 is answered with a status in the status state or after a handshake to it; a ping in the status state is echoed; only a handshake changes the client state |
| Connection.StatusFor | src/status.rs:78-108 | the advertised status never shows a player or a sample; its description is the starting or the sleeping message; `serve` reports the last known version and player limit, else 1.16.5, protocol 754 and no limit; `status_server` always the latter |
| Connection.LoginEffect | src/status.rs:58-59 | a login starts the server exactly when it is not starting yet; afterwards it is starting; a start raises `starting` and changes nothing else, except that `serve` also records now as the active time |
| Connection.Handle | src/status.rs:45-128 | a packet gets at most one reply, and the client moves to `Dispatch`'s state; a kicked login gets the starting disconnect, applies the login's effect and ends the connection; a handshake that does not decode ends it unanswered, and one naming an unknown state panics unanswered; a status request gets `StatusFor` of the current server; a ping gets its own frame back; any other packet gets nothing; only the kick changes the server |
| Connection.Session | src/status.rs:34-129 | the connection loop uses up a prefix of the socket's reads, and leaves the server as it was or as one login's effect left it |
| Connection.SessionOfFrames | src/status.rs:34-129 | for packets whose frames have a body under 16384 bytes, however the frames are cut into reads, the connection answers exactly as its packets call for |
| Connection.OnlyLoginTouchesServer | src/status.rs:45-62 | a connection changes the server only by a login's effect, announced by its last reply, and a disconnect is always the last reply |
| Connection.StatusPingExchange | src/status.rs:64-123 | a handshake to the status state, a status request and a ping are answered with two status responses and the ping frame unchanged |
| Connection.LoginAttempt | src/status.rs:45-76 | a handshake to the login state followed by a login start is answered with the starting disconnect and the login's effect |
| Connection.UnknownNextStatePanics | src/status.rs:64-76 | a handshake naming an unknown next state ends the task in a panic, unanswered, whatever follows |
| Connection.LoginStart | src/status.rs:58-59 | the new state and the result are `LoginEffect` of the old state |
| Connection.HandlePacket | src/status.rs:45-128 | the replies, the new states and whether the loop stops are `Handle` of the old state |
| Connection.ServePacket | src/status.rs:35-128 | one turn of the loop either ends the connection with `Session`'s outcome or leaves the rest of `Session` to run, having used up input |
| Connection.RunSession | src/status.rs:34-129 | the replies, the ending, the new states and what is left of the socket are `Session` of the old ones |
| StatusService.Serve | src/status.rs:23-139 | `serve` is the connection loop with the configured messages |
| StatusService.ServeReportsLastStatus | src/status.rs:78-123 | a ping answered by `serve` reports the last status's version and player limit, nobody online, and the starting or sleeping message |
| StatusService.ServeStartsServer | src/status.rs:45-62 | a login to `serve` while the server sleeps is told the configured message and starts the server, recording the login time |
| Entry.Route | src/main.rs:68-86 | a connection is proxied exactly when the server is online |
| Entry.Accept | src/main.rs:68-86 | the accept loop routes by `Route` on the current state |
| Entry.ProxiedOnlyAfterPoll | src/main.rs:68-86 | after a poll, connections are proxied exactly when the server answered and is not stopping; after an exit or a successful kill, they go to the status service |
| Entry.StoppingNeverProxied | src/main.rs:68-86 | no reachable state proxies connections to a stopping server |
| Entry.StatusServer | src/main.rs:155-267 | `status_server` is the connection loop with the fixed labels |
| Entry.StatusServerReportsFixedVersion | src/main.rs:216-244 | `status_server` always reports version 1.16.5, protocol 754, no player limit and nobody online |
| Entry.StatusServerStartsServer | src/main.rs:176-198 | a login to `status_server` while the server sleeps is told the fixed message and raises `starting`, changing nothing else |

## Left out

- Sockets: reads are the given chunk sequence. Writes and `shutdown` always succeed, so the `?` on a write error and the error result of `shutdown` are not modelled.
- `proxy` and `io::copy` are not modelled. The model keeps only the routing decision.
- Concurrency is not modelled. The atomics and mutexes of `ServerState` are plain fields. Other tasks, such as the monitor polling the server, do not interleave with a connection. Races between `starting()` and `set_starting` are not modelled.
- The server task spawned by `start_server` is not modelled. Its launch and exit are the separate methods `InvokeServerCommand` and `ServerExited`.
- Where `status_server` spawns `server::start`, the model raises `starting` and stops there. That function is not part of this model.
- Process spawning, `child.wait`, `kill_gracefully` and the RCON client are replaced by their outcomes, passed as parameters. The `save-all`/`stop` RCON commands, whose failures the source ignores, are not modelled.
- `child.id().expect(...)` is assumed always to yield an id. The working directory and `kill_on_drop` are not modelled.
- Server.InvokeServerCommand: an empty command returns `NoProgram`, where the source panics indexing `args[0]`.
- `types::read_var_int`, `RawPacket` encode/decode (`proto.rs`) and `Handshake::decode` are not part of this model.
  - The first two are written out from the Minecraft protocol's VarInt and packet framing. They are the model's own definitions.
  - `Protocol.ReadVarInt` returns an error when the buffer ends inside the VarInt. The finding about a long length prefix that is cut short rests on this definition.
  - The handshake decoder is a parameter.
- `ClientState::from_id` (`proto.rs`) is not part of this model. `Protocol.ClientStateFromId` is the model's own definition: 1 is the status state, 2 the login state, and any other id has no state.
- The chat `Message` wrapping of descriptions and kick reasons is not modelled. A description is its text.
- The packet ids (status 0, ping 1, login start 0) and the default version "1.16.5" with protocol 754 come from `proto.rs`, which is not part of this model.
- The labels of `status_server` come from the configuration module, which is not part of this model. They are parameters (`Connection.Labels`).
- The `rcon` and `unix` build features are taken as enabled.
- Logging is not modelled.
- The ctrl-c handler that calls `kill_server` and exits is not modelled.
- Release-build arithmetic is assumed: the `usize` frame size wraps. Debug-build overflow panics and `Instant` overflow are not modelled.
- Each `Instant::now()` inside one operation is the same `now`.
- Connection.SessionOfFrames: proved only for packets whose frame body is under 16384 bytes, for the same reason as `Framing.ReadsEncodedPacket`.
- Framing.ReadsEncodedPacket: proved only for frames whose body is under 16384 bytes. Longer frames can fail when the first read is short (see `Framing.LongLengthPrefixCutShort`).
- Server.AtMostOneStart: stated for runs without a process exit. After an exit a new start is allowed, as the source intends.
- Server.MinimumOnlineTime: stated for a positive minimum online time. A zero minimum sets no deadline at all.
