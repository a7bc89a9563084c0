/**
 * The shared lifecycle state of the one game-server process (`ServerState`)
 * and everything that changes it: status polls, the wake-up on a login, the
 * process launch and exit, and the stop through RCON or a signal.
 *
 * `Lifecycle` is the value of the state at one moment; the functions on it
 * say what each operation does to it, and the class `ServerState` holds the
 * state as mutable fields whose methods are proved against those functions.
 */
module Server {
  import opened Wrappers
  import opened Protocol
  import opened Settings

  /** A reading of the monotonic clock (`Instant`), in nanoseconds. */
  type Instant = int

  const NANOS_PER_SEC: nat := 1_000_000_000

  /** `Duration::from_secs`. */
  function Secs(d: nat): nat
  {
    d * NANOS_PER_SEC
  }

  /** `Instant::elapsed`, which never goes below zero. */
  function Elapsed(since: Instant, now: Instant): nat
  {
    if now >= since then now - since else 0
  }

  datatype Lifecycle = Lifecycle(
    online: bool,
    starting: bool,
    stopping: bool,
    pid: Option<u32>,
    /** The last known status; once set it is never cleared. */
    status: Option<ServerStatus>,
    /** The last time the server was seen active. */
    lastActive: Option<Instant>,
    keepOnlineUntil: Option<Instant>)

  /** `ServerState::default()`. */
  const Initial: Lifecycle := Lifecycle(false, false, false, None, None, None, None)

  /** The result of an operation that reports whether it did something. */
  datatype Step = Step(state: Lifecycle, done: bool)

  // ---------------------------------------------------------------------------
  // What each operation does to the state

  /** `set_keep_online_until`: a duration of zero, like none at all, clears the deadline. */
  function KeepOnlineDeadline(duration: Option<u32>, now: Instant): (r: Option<Instant>)
    ensures r.Some? <==> duration.Some? && duration.value > 0
    ensures r.Some? ==> r.value - now == Secs(duration.value) > 0
  {
    if duration.Some? && duration.value > 0 then Some(now + Secs(duration.value)) else None
  }

  /**
   * `update_status`: a poll of the real server returned `status`, or nothing
   * when it did not answer.
   */
  function StatusUpdated(s: Lifecycle, cfg: Config, status: Option<ServerStatus>, now: Instant): (r: Lifecycle)
    ensures r.online <==> status.Some? && !s.stopping
    ensures r.status == if status.Some? then status else s.status
    ensures r.keepOnlineUntil ==
      if !s.online && r.online then KeepOnlineDeadline(Some(cfg.minOnlineTime), now) else s.keepOnlineUntil
    ensures r.lastActive ==
      if (!s.online && r.online) || (status.Some? && status.value.players.online > 0) then Some(now) else s.lastActive
    ensures r.starting == s.starting && r.stopping == s.stopping && r.pid == s.pid
  {
    var online := status.Some? && !s.stopping;
    var s1 := s.(online := online);
    var s2 := if !s.online && online
      then s1.(lastActive := Some(now), keepOnlineUntil := KeepOnlineDeadline(Some(cfg.minOnlineTime), now))
      else s1;
    match status
    case None => s2
    case Some(st) => (if st.players.online > 0 then s2.(lastActive := Some(now)) else s2).(status := Some(st))
  }

  predicate KeptOnline(s: Lifecycle, now: Instant)
  {
    s.keepOnlineUntil.Some? && s.keepOnlineUntil.value >= now
  }

  predicate PlayersOnline(s: Lifecycle)
  {
    s.status.Some? && s.status.value.players.online > 0
  }

  /**
   * The sleep rule of `should_sleep`: past the keep-online deadline, online,
   * started by this proxy, nobody playing, and idle for `sleep_after`.
   */
  predicate SleepDue(s: Lifecycle, cfg: Config, now: Instant)
    ensures SleepDue(s, cfg, now) ==> s.keepOnlineUntil.None? || s.keepOnlineUntil.value < now
    ensures SleepDue(s, cfg, now) ==> s.status.None? || s.status.value.players.online == 0
    ensures SleepDue(s, cfg, now) ==>
      s.lastActive.Some? && (cfg.sleepAfter == 0 || s.lastActive.value + Secs(cfg.sleepAfter) <= now)
  {
    && !KeptOnline(s, now)
    && s.online
    && s.starting
    && !PlayersOnline(s)
    && s.lastActive.Some?
    && Elapsed(s.lastActive.value, now) >= Secs(cfg.sleepAfter)
  }

  /** `start_server`: a start is spawned only when none is under way. */
  function Started(s: Lifecycle, now: Instant): (r: Step)
    ensures r.done <==> !s.starting
    ensures r.state.starting
    ensures r.done ==> r.state == s.(starting := true, lastActive := Some(now))
    ensures !r.done ==> r.state == s
  {
    if s.starting then Step(s, false) else Step(s.(starting := true, lastActive := Some(now)), true)
  }

  /** What a successful stop request does to the state. */
  function StopRequested(s: Lifecycle): Lifecycle
  {
    s.(online := false, keepOnlineUntil := None)
  }

  /** `stop_server_rcon`, given whether the RCON connection could be made. */
  function RconStopped(s: Lifecycle, cfg: Config, rconConnects: bool): (r: Step)
    ensures r.done <==> cfg.rconEnabled && rconConnects
    ensures r.state == if r.done then StopRequested(s) else s
  {
    if !cfg.rconEnabled then Step(s, false)
    else if !rconConnects then Step(s, false)
    else Step(StopRequested(s), true)
  }

  /** `stop_server_signal`: a signal can be sent only to a known process. */
  function SignalStopped(s: Lifecycle): (r: Step)
    ensures r.done <==> s.pid.Some?
    ensures r.state == if r.done then StopRequested(s) else s
  {
    if s.pid.Some? then Step(StopRequested(s), true) else Step(s, false)
  }

  /** How `kill_server` stopped the server, if it did. */
  datatype StopVia = NotStopped | ViaRcon | ViaSignal

  /** The outcome of `kill_server`: the new state and the mechanism that stopped the server. */
  datatype Stop = Stop(state: Lifecycle, via: StopVia)
  {
    /** What `kill_server` returns. */
    predicate done()
    {
      !via.NotStopped?
    }
  }

  /**
   * `kill_server`: RCON first, the signal second. The signal goes out only
   * when RCON is disabled or does not connect; whenever there is a process
   * one of the two stops it, and then the state records the stop.
   */
  function Killed(s: Lifecycle, cfg: Config, rconConnects: bool): (r: Stop)
    ensures r.via == ViaRcon <==> s.pid.Some? && cfg.rconEnabled && rconConnects
    ensures r.via == ViaSignal <==> s.pid.Some? && !(cfg.rconEnabled && rconConnects)
    ensures r.done() <==> s.pid.Some?
    ensures r.done() ==> r.state == StopRequested(s).(stopping := true)
    ensures !r.done() ==> r.state == s
  {
    if s.pid.None? then Stop(s, NotStopped)
    else
      var rcon := RconStopped(s, cfg, rconConnects);
      if rcon.done then Stop(rcon.state.(stopping := true), ViaRcon)
      else
        var signal := SignalStopped(rcon.state);
        if signal.done then Stop(signal.state.(stopping := true), ViaSignal)
        else Stop(signal.state, NotStopped)
  }

  /** The reset once the server process has exited. */
  function Exited(s: Lifecycle): (r: Lifecycle)
    ensures r.pid.None? && !r.online && !r.starting && !r.stopping
    ensures r.status == s.status && r.lastActive == s.lastActive && r.keepOnlineUntil == s.keepOnlineUntil
    ensures Consistent(r)
  {
    s.(pid := None, online := false, starting := false, stopping := false)
  }

  // ---------------------------------------------------------------------------
  // The server command

  /** Joins pieces with single spaces, the inverse of `SplitSpaces`. */
  function JoinSpaces(pieces: seq<string>): string
    requires |pieces| >= 1
  {
    if |pieces| == 1 then pieces[0] else pieces[0] + " " + JoinSpaces(pieces[1..])
  }

  /** `str::split(" ")`: the pieces between single spaces, empty ones included. */
  function SplitSpaces(s: string): (pieces: seq<string>)
    ensures |pieces| >= 1
    ensures forall i :: 0 <= i < |pieces| ==> ' ' !in pieces[i]
    ensures JoinSpaces(pieces) == s
  {
    if s == [] then [""]
    else
      var tail := SplitSpaces(s[1..]);
      if s[0] == ' ' then
        assert s == [s[0]] + s[1..];
        [""] + tail
      else
        var pieces := [[s[0]] + tail[0]] + tail[1..];
        assert pieces[1..] == tail[1..];
        assert s == [s[0]] + s[1..];
        pieces
  }

  lemma {:induction false} JoinSpacesSnoc(pieces: seq<string>, last: string)
    requires |pieces| >= 1
    ensures JoinSpaces(pieces + [last]) == JoinSpaces(pieces) + " " + last
  {
    if |pieces| > 1 {
      assert (pieces + [last])[1..] == pieces[1..] + [last];
      JoinSpacesSnoc(pieces[1..], last);
    }
  }

  /**
   * `str::split_terminator(" ")`: like `split`, but an empty last piece is
   * dropped, so a trailing space adds no argument and an empty command has
   * no pieces at all.
   */
  function SplitTerminator(s: string): (pieces: seq<string>)
    ensures pieces == [] <==> s == ""
    ensures forall i :: 0 <= i < |pieces| ==> ' ' !in pieces[i]
    ensures s != "" && s[|s| - 1] == ' ' ==> JoinSpaces(pieces) + " " == s
    ensures s != "" && s[|s| - 1] != ' ' ==> JoinSpaces(pieces) == s
  {
    var all := SplitSpaces(s);
    if all[|all| - 1] == "" then
      if |all| > 1 then
        assert all == all[..|all| - 1] + [""];
        JoinSpacesSnoc(all[..|all| - 1], "");
        all[..|all| - 1]
      else []
    else
      JoinSpacesLast(all);
      all
  }

  /** A text joined from pieces whose last one is not empty ends with that piece's last character. */
  lemma JoinSpacesLast(pieces: seq<string>)
    requires |pieces| >= 1 && pieces[|pieces| - 1] != ""
    ensures var s, last := JoinSpaces(pieces), pieces[|pieces| - 1];
      s != "" && s[|s| - 1] == last[|last| - 1]
  {
    if |pieces| > 1 {
      var n := |pieces|;
      assert pieces == pieces[..n - 1] + [pieces[n - 1]];
      JoinSpacesSnoc(pieces[..n - 1], pieces[n - 1]);
    }
  }

  /** The program and the arguments that `invoke_server_command` hands to the OS. */
  datatype Launch = Launch(program: string, args: seq<string>)

  datatype LaunchError =
    /** The command has no first word; the source panics indexing it. */
    | NoProgram
    /** The OS could not start the process. */
    | SpawnFailed

  function CommandLine(command: string): (r: Result<Launch, LaunchError>)
    ensures r.Err? <==> command == ""
    ensures r.Ok? ==> [r.value.program] + r.value.args == SplitTerminator(command)
  {
    var args := SplitTerminator(command);
    if args == [] then Err(NoProgram) else Ok(Launch(args[0], args[1..]))
  }

  // ---------------------------------------------------------------------------
  // Runs of the state machine

  /** Everything that changes the lifecycle state. */
  datatype Event =
    | Poll(status: Option<ServerStatus>)
    | LoginStart
    | Spawn(pid: u32)
    | Exit
    | Kill(rconConnects: bool)

  datatype Timed = Timed(at: Instant, event: Event)

  function Apply(s: Lifecycle, cfg: Config, t: Timed): Lifecycle
  {
    match t.event
    case Poll(status) => StatusUpdated(s, cfg, status, t.at)
    case LoginStart => Started(s, t.at).state
    case Spawn(pid) => s.(pid := Some(pid))
    case Exit => Exited(s)
    case Kill(rconConnects) => Killed(s, cfg, rconConnects).state
  }

  function Run(s: Lifecycle, cfg: Config, trace: seq<Timed>): Lifecycle
    decreases |trace|
  {
    if trace == [] then s else Run(Apply(s, cfg, trace[0]), cfg, trace[1..])
  }

  /** How many of the logins in a run spawned a server start. */
  function Spawns(s: Lifecycle, cfg: Config, trace: seq<Timed>): nat
    decreases |trace|
  {
    if trace == [] then 0
    else
      (if trace[0].event == LoginStart && !s.starting then 1 else 0) + Spawns(Apply(s, cfg, trace[0]), cfg, trace[1..])
  }

  /** Invariant of every reachable state. */
  ghost predicate Consistent(s: Lifecycle)
  {
    && (s.stopping ==> !s.online && s.keepOnlineUntil.None?)
    && (s.online ==> s.lastActive.Some?)
  }

  lemma ConsistentStep(s: Lifecycle, cfg: Config, t: Timed)
    requires Consistent(s)
    ensures Consistent(Apply(s, cfg, t))
  {
  }

  /** Every state reached from the initial one is consistent; in particular a stopping server is never online. */
  lemma {:induction false} RunConsistent(s: Lifecycle, cfg: Config, trace: seq<Timed>)
    requires Consistent(s)
    ensures Consistent(Run(s, cfg, trace))
    decreases |trace|
  {
    if trace != [] {
      ConsistentStep(s, cfg, trace[0]);
      RunConsistent(Apply(s, cfg, trace[0]), cfg, trace[1..]);
    }
  }

  /**
   * However many logins arrive, as long as the process has not exited in
   * between, at most one of them spawns a start, and none if a start was
   * already under way.
   */
  lemma {:induction false} AtMostOneStart(s: Lifecycle, cfg: Config, trace: seq<Timed>)
    requires forall i :: 0 <= i < |trace| ==> trace[i].event != Exit
    ensures Spawns(s, cfg, trace) <= if s.starting then 0 else 1
    ensures Spawns(s, cfg, trace) > 0 ==> Run(s, cfg, trace).starting
    decreases |trace|
  {
    if trace != [] {
      var next := Apply(s, cfg, trace[0]);
      assert s.starting ==> next.starting;
      assert trace[0].event == LoginStart ==> next.starting;
      AtMostOneStart(next, cfg, trace[1..]);
      if Spawns(next, cfg, trace[1..]) == 0 && trace[0].event == LoginStart && !s.starting {
        StartingPersists(next, cfg, trace[1..]);
      }
    }
  }

  /** Only the exit of the process clears `starting`. */
  lemma {:induction false} StartingPersists(s: Lifecycle, cfg: Config, trace: seq<Timed>)
    requires s.starting
    requires forall i :: 0 <= i < |trace| ==> trace[i].event != Exit
    ensures Run(s, cfg, trace).starting
    decreases |trace|
  {
    if trace != [] {
      StartingPersists(Apply(s, cfg, trace[0]), cfg, trace[1..]);
    }
  }

  /** While online, the keep-online deadline is set and not earlier than `until`. */
  ghost predicate HeldUntil(s: Lifecycle, until: Instant)
  {
    s.online ==> s.keepOnlineUntil.Some? && s.keepOnlineUntil.value >= until
  }

  lemma {:induction false} HeldUntilRun(s: Lifecycle, cfg: Config, trace: seq<Timed>, until: Instant)
    requires cfg.minOnlineTime > 0
    requires HeldUntil(s, until)
    requires forall i :: 0 <= i < |trace| ==> trace[i].at + Secs(cfg.minOnlineTime) >= until
    ensures HeldUntil(Run(s, cfg, trace), until)
    decreases |trace|
  {
    if trace != [] {
      var next := Apply(s, cfg, trace[0]);
      assert HeldUntil(next, until);
      HeldUntilRun(next, cfg, trace[1..], until);
    }
  }

  /**
   * The minimum online time: once a poll sees the server come online at
   * `since`, no state reached by later events is due to sleep before
   * `since + min_online_time`, whatever players, polls, stops and restarts
   * happen in between.
   */
  lemma MinimumOnlineTime(s: Lifecycle, cfg: Config, status: ServerStatus, since: Instant,
                          trace: seq<Timed>, now: Instant)
    requires cfg.minOnlineTime > 0
    requires !s.online && !s.stopping
    requires forall i :: 0 <= i < |trace| ==> trace[i].at >= since
    requires now <= since + Secs(cfg.minOnlineTime)
    ensures !SleepDue(Run(StatusUpdated(s, cfg, Some(status), since), cfg, trace), cfg, now)
  {
    var until := since + Secs(cfg.minOnlineTime);
    HeldUntilRun(StatusUpdated(s, cfg, Some(status), since), cfg, trace, until);
  }

  /** Once a status has been seen it stays known, whatever happens later. */
  lemma {:induction false} StatusNeverCleared(s: Lifecycle, cfg: Config, trace: seq<Timed>)
    requires s.status.Some?
    ensures Run(s, cfg, trace).status.Some?
    decreases |trace|
  {
    if trace != [] {
      StatusNeverCleared(Apply(s, cfg, trace[0]), cfg, trace[1..]);
    }
  }

  /**
   * A server that no login has started is never put to sleep: without a
   * login, `starting` is never raised, and the sleep rule requires it.
   */
  lemma {:induction false} NeverSleepsUnlessStarted(s: Lifecycle, cfg: Config, trace: seq<Timed>, now: Instant)
    requires !s.starting
    requires forall i :: 0 <= i < |trace| ==> trace[i].event != LoginStart
    ensures !Run(s, cfg, trace).starting
    ensures !SleepDue(Run(s, cfg, trace), cfg, now)
    decreases |trace|
  {
    if trace != [] {
      NeverSleepsUnlessStarted(Apply(s, cfg, trace[0]), cfg, trace[1..], now);
    }
  }

  /** Once due, sleep stays due as time passes and nothing else happens. */
  lemma SleepStaysDue(s: Lifecycle, cfg: Config, now: Instant, later: Instant)
    requires SleepDue(s, cfg, now) && now <= later
    ensures SleepDue(s, cfg, later)
  {
  }

  // ---------------------------------------------------------------------------
  // The state object

  class ServerState {
    var online: bool
    var starting: bool
    var stopping: bool
    var pid: Option<u32>
    var status: Option<ServerStatus>
    var lastActive: Option<Instant>
    var keepOnlineUntil: Option<Instant>

    function Snapshot(): Lifecycle
      reads this
    {
      Lifecycle(online, starting, stopping, pid, status, lastActive, keepOnlineUntil)
    }

    constructor ()
      ensures Snapshot() == Initial
    {
      online, starting, stopping := false, false, false;
      pid, status := None, None;
      lastActive, keepOnlineUntil := None, None;
    }

    method UpdateLastActiveTime(now: Instant)
      modifies this
      ensures Snapshot() == old(Snapshot()).(lastActive := Some(now))
    {
      lastActive := Some(now);
    }

    method SetKeepOnlineUntil(duration: Option<u32>, now: Instant)
      modifies this
      ensures Snapshot() == old(Snapshot()).(keepOnlineUntil := KeepOnlineDeadline(duration, now))
    {
      if duration.Some? && duration.value > 0 {
        keepOnlineUntil := Some(now + Secs(duration.value));
      } else {
        keepOnlineUntil := None;
      }
    }

    method UpdateStatus(config: Config, newStatus: Option<ServerStatus>, now: Instant)
      modifies this
      ensures Snapshot() == StatusUpdated(old(Snapshot()), config, newStatus, now)
    {
      var wasOnline := online;
      online := newStatus.Some? && !stopping;

      // The online edge counts as activity
      if !wasOnline && online {
        UpdateLastActiveTime(now);
        SetKeepOnlineUntil(Some(config.minOnlineTime), now);
      }

      if newStatus.Some? {
        // Players online count as activity
        if newStatus.value.players.online > 0 {
          UpdateLastActiveTime(now);
        }
        status := newStatus;
      }
    }

    method ShouldSleep(config: Config, now: Instant) returns (r: bool)
      ensures r == SleepDue(Snapshot(), config, now)
    {
      // A deadline still ahead holds the server up
      if keepOnlineUntil.Some? && keepOnlineUntil.value >= now {
        return false;
      }
      if !online || !starting {
        return false;
      }
      // Players online hold the server up
      if status.Some? && status.value.players.online > 0 {
        return false;
      }
      // The idle time must reach the sleep threshold
      if lastActive.Some? {
        return Elapsed(lastActive.value, now) >= Secs(config.sleepAfter);
      }
      return false;
    }

    /** `kill_server`; `via` tells which mechanism stopped the server. */
    method KillServer(config: Config, rconConnects: bool) returns (killed: bool, via: StopVia)
      modifies this
      ensures Stop(Snapshot(), via) == Killed(old(Snapshot()), config, rconConnects)
      ensures killed == Stop(Snapshot(), via).done()
    {
      // Without a process id there is nothing to stop
      if pid.None? {
        return false, NotStopped;
      }
      var viaRcon := StopServerRcon(config, this, rconConnects);
      if viaRcon {
        stopping := true;
        return true, ViaRcon;
      }
      var viaSignal := StopServerSignal(this);
      if viaSignal {
        stopping := true;
        return true, ViaSignal;
      }
      return false, NotStopped;
    }
  }

  /** `start_server`; `spawned` tells whether the task that runs the server command was spawned. */
  method StartServer(server: ServerState, now: Instant) returns (spawned: bool)
    modifies server
    ensures Step(server.Snapshot(), spawned) == Started(old(server.Snapshot()), now)
  {
    if server.starting {
      return false;
    }
    server.starting := true;
    server.UpdateLastActiveTime(now);
    return true;
  }

  /**
   * The launch half of `invoke_server_command`: split the command and start
   * it. `started` is the process id the OS gave it, or nothing if it failed.
   */
  method InvokeServerCommand(config: Config, state: ServerState, started: Option<u32>)
    returns (r: Result<Launch, LaunchError>)
    modifies state
    ensures r.Err? <==> config.command == "" || started.None?
    ensures r.Ok? ==> r == CommandLine(config.command)
    ensures state.Snapshot() == if r.Ok? then old(state.Snapshot()).(pid := started) else old(state.Snapshot())
  {
    var args := SplitTerminator(config.command);
    if args == [] {
      return Err(NoProgram);
    }
    if started.None? {
      return Err(SpawnFailed);
    }
    state.pid := started;
    return Ok(Launch(args[0], args[1..]));
  }

  /**
   * The exit half of `invoke_server_command`: once waiting for the process
   * returns, the state is reset; if waiting fails it returns early and
   * nothing is reset.
   */
  method ServerExited(state: ServerState, waitSucceeded: bool)
    modifies state
    ensures state.Snapshot() == if waitSucceeded then Exited(old(state.Snapshot())) else old(state.Snapshot())
  {
    if !waitSucceeded {
      return;
    }
    state.pid := None;
    state.online := false;
    state.starting := false;
    state.stopping := false;
  }

  /** `stop_server_rcon`; `connects` tells whether the RCON connection could be made. */
  method StopServerRcon(config: Config, server: ServerState, connects: bool) returns (stopped: bool)
    modifies server
    ensures Step(server.Snapshot(), stopped) == RconStopped(old(server.Snapshot()), config, connects)
  {
    // A disabled RCON stops nothing
    if !config.rconEnabled {
      return false;
    }
    if !connects {
      return false;
    }
    server.online := false;
    server.SetKeepOnlineUntil(None, 0);
    return true;
  }

  /** `stop_server_signal`. */
  method StopServerSignal(server: ServerState) returns (stopped: bool)
    modifies server
    ensures Step(server.Snapshot(), stopped) == SignalStopped(old(server.Snapshot()))
  {
    if server.pid.Some? {
      server.online := false;
      server.SetKeepOnlineUntil(None, 0);
      return true;
    }
    return false;
  }
}
