/** The daemon's command protocol on Windows, as a state machine over values: the IPC server
    (src/lib/deskflow/ipc/DaemonIpcServer.cpp), the handlers of DaemonApp
    (src/apps/deskflow-daemon/DaemonApp.cpp) and the watchdog (src/lib/platform/MSWindowsWatchdog.cpp). */
module DaemonProtocol {
  import opened Text

  // ----- the IPC server

  /** A registered command; `ticket` numbers the registrations, since ids are reused once answered. */
  datatype Pending = Pending(client: nat, command: string, legacy: bool, ticket: nat)

  datatype Registration = Registration(client: nat, id: string, command: string, legacy: bool)

  /** The result of a command, on its way to whoever asked for it. */
  datatype Outcome = Outcome(id: string, success: bool, detail: string)

  datatype Response =
    | Ack
    | Error
    | LogPath
    | CommandResult(id: string, command: string, success: bool, detail: string)

  /** History: how a registration was completed; `told` is false when its client had gone. */
  datatype Completion = Completion(ticket: nat, client: nat, outcome: Outcome, told: bool)

  /** `connections` numbers the connections ever made, and `clients` holds those still there; `queue`
      holds the invocations queued on the server's thread; `registered`, `completed` and `abandoned` are
      history, the last the tickets still pending when the server is destroyed. */
  datatype Server = Server(
    alive: bool, clients: set<nat>, connections: nat, pending: map<string, Pending>, queue: seq<Outcome>,
    written: seq<(nat, Response)>, registered: seq<Registration>, completed: seq<Completion>, abandoned: set<nat>)

  predicate IsIdChar(c: char) {
    'a' <= c <= 'z' || 'A' <= c <= 'Z' || '0' <= c <= '9' || c == '_' || c == '-'
  }

  predicate IsValidRequestId(id: string) {
    1 <= |id| <= 64 && forall i :: 0 <= i < |id| ==> IsIdChar(id[i])
  }

  function Write(s: Server, client: nat, r: Response): Server {
    s.(written := s.written + [(client, r)])
  }

  function Register(s: Server, client: nat, id: string, command: string, legacy: bool): (Server, bool) {
    if !IsValidRequestId(id) || id in s.pending then (Write(s, client, Error), false)
    else
      (s.(pending := s.pending[id := Pending(client, command, legacy, |s.registered|)],
          registered := s.registered + [Registration(client, id, command, legacy)]), true)
  }

  /** Line breaks and tabs of a detail become spaces, so that a result is one line of four fields. */
  function SafeDetail(detail: string): string {
    seq(|detail|, i requires 0 <= i < |detail| =>
      if detail[i] == '\r' || detail[i] == '\n' || detail[i] == '\t' then ' ' else detail[i])
  }

  function ResponseFor(p: Pending, o: Outcome): Response {
    if p.legacy then (if o.success then Ack else Error)
    else CommandResult(o.id, p.command, o.success, SafeDetail(o.detail))
  }

  /** `completeCommand`: forgets the request, and answers it if its client is still there. */
  function Complete(s: Server, o: Outcome): Server {
    if o.id !in s.pending then s
    else
      var p := s.pending[o.id];
      var told := p.client in s.clients;
      var taken := s.(pending := s.pending - {o.id},
                      completed := s.completed + [Completion(p.ticket, p.client, o, told)]);
      if told then Write(taken, p.client, ResponseFor(p, o)) else taken
  }

  /** A callback's first hop: dropped when the server is gone, else queued on its thread. */
  function Post(s: Server, o: Outcome): Server {
    if s.alive then s.(queue := s.queue + [o]) else s
  }

  function PostAll(s: Server, os: seq<Outcome>): Server
    decreases |os|
  {
    if os == [] then s else PostAll(Post(s, os[0]), os[1..])
  }

  /** The second hop: the next queued invocation. */
  function Deliver(s: Server): Server {
    if !s.alive || s.queue == [] then s else Complete(s.(queue := s.queue[1..]), s.queue[0])
  }

  /** A new connection; its number was never used before. */
  function Accept(s: Server): Server {
    s.(clients := s.clients + {s.connections}, connections := s.connections + 1)
  }

  function Destroy(s: Server): Server {
    s.(alive := false, pending := map[], queue := [],
       abandoned := s.abandoned + set id | id in s.pending :: s.pending[id].ticket)
  }

  // ----- the watchdog

  datatype ProcessState = Idle | StartScheduled | StartPending | StopPending | Running

  /** `slot` names the request whose callback waits for a start; `flight` is a callback the watchdog's
      thread has taken and not yet called. */
  datatype Watchdog = Watchdog(
    command: string, elevate: bool, process: ProcessState, slot: Option<string>, failures: nat,
    flight: Option<Outcome>)

  const FRESH_WATCHDOG := Watchdog("", false, Idle, None, 0, None)

  const SUPERSEDED := "process start request was superseded"

  /** What is called before `setProcessConfig` returns: the callback of the request it replaces, and
      that of one that finds its command already running. */
  function Calls(superseded: Option<string>, immediate: Option<string>): seq<Outcome> {
    (if superseded.Some? then [Outcome(superseded.value, false, SUPERSEDED)] else []) +
    (if immediate.Some? then [Outcome(immediate.value, true, "")] else [])
  }

  /** `setProcessConfig`: the new watchdog, and the callbacks it calls. */
  function SetProcessConfig(w: Watchdog, command: string, elevate: bool, callback: Option<string>)
    : (Watchdog, seq<Outcome>)
  {
    if w.command == command && w.elevate == elevate then
      if command != "" && w.process == Running then (w.(slot := None), Calls(w.slot, callback))
      else
        (w.(slot := callback, process := if command != "" && w.process == Idle then StartPending else w.process),
         Calls(w.slot, None))
    else
      (w.(command := command, elevate := elevate, slot := if command != "" then callback else None,
          process := if command == "" || w.process == Running || w.process == StopPending then StopPending
                     else StartPending),
       Calls(w.slot, None))
  }

  function RetryDelay(failures: nat): real {
    if failures <= 1 then 0.0
    else if failures == 2 then 1.0
    else if failures == 3 then 2.0
    else if failures == 4 then 4.0
    else if failures == 5 then 8.0
    else if failures == 6 then 16.0
    else 30.0
  }

  /** What one turn of the main loop finds: the start error if starting fails, whether a scheduled
      start is due, whether the process is still up, whether the session changed. */
  datatype Turn = Turn(startError: Option<string>, due: bool, up: bool, sessionChanged: bool)

  const NO_COMMAND := "cannot start process, command is empty"

  function MainLoopTurn(w: Watchdog, t: Turn, foreground: bool): Watchdog {
    var u := if w.process == Running && w.command != "" && !foreground && t.sessionChanged
             then w.(process := StopPending) else w;
    match u.process
    case Idle => u
    case StartScheduled => if t.due then u.(process := StartPending) else u
    case StartPending =>
      var error := if u.command == "" then Some(NO_COMMAND) else t.startError;
      if error.None? then
        u.(failures := 0, process := Running, slot := None,
           flight := if u.slot.Some? then Some(Outcome(u.slot.value, true, "")) else None)
      else
        u.(failures := u.failures + 1, slot := None,
           process := if RetryDelay(u.failures + 1) > 0.0 then StartScheduled else StartPending,
           flight := if u.slot.Some? then Some(Outcome(u.slot.value, false, error.value)) else None)
    case Running => if t.up then u else u.(process := StartPending)
    case StopPending => u.(process := if u.command == "" then Idle else StartPending)
  }

  // ----- the daemon application

  /** `corePath` is the core binary's path, which does not change while the daemon runs. */
  datatype Daemon = Daemon(
    server: Server, watchdog: Option<Watchdog>, configFile: string, persisted: string, foreground: bool,
    corePath: string)

  /** What a handler finds outside: the file system, the config file's core mode and elevation, and the
      id made up for a request that carries none. */
  datatype World = World(fileExists: string -> bool, coreMode: int, elevate: bool, legacyId: string)

  const NO_CONFIG := "no config file set"
  const REMOTE_CONFIG := "remote config file paths are not allowed"
  const NO_WATCHDOG := "watchdog is not initialized"
  const EMPTY_PATH := "config file path is empty"

  predicate IsRemote(path: string) {
    "\\\\" <= path || "//" <= path
  }

  /** `validateConfigFile`: the error, or the empty string. */
  function ValidateConfigFile(path: string, world: World): string {
    if path == "" then NO_CONFIG
    else if IsRemote(path) then REMOTE_CONFIG
    else if !world.fileExists(path) then "config file does not exist: " + path
    else ""
  }

  function SetConfigFile(d: Daemon, id: string, path: string, world: World): Daemon {
    var error := ValidateConfigFile(path, world);
    if error != "" then d.(server := Complete(d.server, Outcome(id, false, error)))
    else d.(configFile := path, persisted := path, server := Complete(d.server, Outcome(id, true, "")))
  }

  const CLIENT_MODE := 1
  const SERVER_MODE := 2

  function ModeArg(mode: int): Option<string> {
    if mode == SERVER_MODE then Some("server") else if mode == CLIENT_MODE then Some("client") else None
  }

  function CommandLine(corePath: string, modeArg: string, configFile: string): string {
    "\"" + corePath + "\" " + modeArg + " --settings \"" + configFile + "\""
  }

  /** A failed start: reported only when someone asked for it. */
  function Refuse(d: Daemon, id: string, error: string): Daemon {
    if id == "" then d else d.(server := Complete(d.server, Outcome(id, false, error)))
  }

  function ApplyWatchdogCommand(d: Daemon, id: string, world: World): Daemon {
    var error := ValidateConfigFile(d.configFile, world);
    if error != "" then Refuse(d, id, error)
    else if d.watchdog.None? then Refuse(d, id, NO_WATCHDOG)
    else
      match ModeArg(world.coreMode)
      case None => Refuse(d, id, "invalid core mode in config: " + Signed(world.coreMode))
      case Some(arg) =>
        var (w, called) := SetProcessConfig(d.watchdog.value, CommandLine(d.corePath, arg, d.configFile),
                                            world.elevate, if id == "" then None else Some(id));
        d.(watchdog := Some(w), server := PostAll(d.server, called))
  }

  function ClearWatchdogCommand(d: Daemon, id: string): Daemon
    requires d.watchdog.Some?
  {
    var (w, called) := SetProcessConfig(d.watchdog.value, "", false, None);
    d.(configFile := "", persisted := "", watchdog := Some(w),
       server := Complete(PostAll(d.server, called), Outcome(id, true, "")))
  }

  function ClearSettings(d: Daemon): Daemon {
    d.(configFile := "", persisted := "")
  }

  /** `run`: a new watchdog, and the last known config file applied. */
  function StartUp(d: Daemon, world: World): Daemon {
    var ready := d.(watchdog := Some(FRESH_WATCHDOG));
    if d.persisted == "" then ready else ApplyWatchdogCommand(ready.(configFile := d.persisted), "", world)
  }

  // ----- one client message

  function StartOrStop(d: Daemon, client: nat, command: string, parts: seq<string>, world: World): Daemon
    requires d.watchdog.Some?
  {
    if |parts| != 1 && |parts| != 2 then d.(server := Write(d.server, client, Error))
    else
      var legacy := |parts| == 1;
      var id := if legacy then world.legacyId else parts[1];
      var (s, ok) := Register(d.server, client, id, command, legacy);
      if !ok then d.(server := s)
      else if command == "start" then ApplyWatchdogCommand(d.(server := s), id, world)
      else ClearWatchdogCommand(d.(server := s), id)
  }

  datatype ConfigRequest = ConfigRequest(id: string, path: string, legacy: bool)

  /** A config file message: an id, a tab and a path, or in the old form the path alone. */
  function ReadConfigRequest(parts: seq<string>, legacyId: string): Option<ConfigRequest> {
    if |parts| != 2 then None
    else
      var separator := IndexFrom(parts[1], '\t', 0);
      if separator == |parts[1]| then Some(ConfigRequest(legacyId, parts[1], true))
      else if separator == 0 then None
      else Some(ConfigRequest(parts[1][..separator], parts[1][separator + 1..], false))
  }

  function ProcessConfigFile(d: Daemon, client: nat, parts: seq<string>, world: World): Daemon {
    match ReadConfigRequest(parts, world.legacyId)
    case None => d.(server := Write(d.server, client, Error))
    case Some(r) =>
      var (s, ok) := Register(d.server, client, r.id, "configFile", r.legacy);
      if !ok then d.(server := s)
      else if r.path == "" then d.(server := Complete(s, Outcome(r.id, false, EMPTY_PATH)))
      else SetConfigFile(d.(server := s), r.id, r.path, world)
  }

  /** `processCommand`, for the commands that reach the application. */
  function ProcessCommand(d: Daemon, client: nat, command: string, parts: seq<string>, world: World): Daemon
    requires d.watchdog.Some?
  {
    if command == "logLevel" then
      d.(server := Write(d.server, client, if |parts| < 2 || parts[1] == "" then Error else Ack))
    else if command == "configFile" then ProcessConfigFile(d, client, parts, world)
    else if command == "start" || command == "stop" then StartOrStop(d, client, command, parts, world)
    else if command == "logPath" then d.(server := Write(d.server, client, LogPath))
    else if command == "clearSettings" then ClearSettings(d).(server := Write(d.server, client, Ack))
    else d
  }

  // ----- runs

  datatype Step =
    | Message(client: nat, command: string, parts: seq<string>, world: World)
    | WatchdogTurn(turn: Turn)
    | WatchdogCalls
    | DeliverQueued
    | Connect
    | Disconnect(client: nat)
    | DestroyServer

  /** One atomic step; a step that cannot happen in this state does nothing. */
  function Next(d: Daemon, step: Step): Daemon
    requires d.watchdog.Some?
  {
    var w := d.watchdog.value;
    match step
    case Message(client, command, parts, world) =>
      if d.server.alive && client in d.server.clients then ProcessCommand(d, client, command, parts, world) else d
    case WatchdogTurn(turn) =>
      if w.flight.None? then d.(watchdog := Some(MainLoopTurn(w, turn, d.foreground))) else d
    case WatchdogCalls =>
      if w.flight.Some? then d.(watchdog := Some(w.(flight := None)), server := Post(d.server, w.flight.value)) else d
    case DeliverQueued => d.(server := Deliver(d.server))
    case Connect => if d.server.alive then d.(server := Accept(d.server)) else d
    case Disconnect(client) => d.(server := d.server.(clients := d.server.clients - {client}))
    case DestroyServer => d.(server := Destroy(d.server))
  }

  /** After start-up the watchdog is there to stay. */
  lemma WatchdogStays(d: Daemon, step: Step)
    requires d.watchdog.Some?
    ensures Next(d, step).watchdog.Some?
  {
    hide SetProcessConfig;
    hide MainLoopTurn;
  }

  function Run(d: Daemon, steps: seq<Step>): (e: Daemon)
    requires d.watchdog.Some?
    ensures e.watchdog.Some?
    decreases |steps|
  {
    if steps == [] then d
    else
      WatchdogStays(d, steps[0]);
      Run(Next(d, steps[0]), steps[1..])
  }

  const EMPTY_SERVER := Server(true, {}, 0, map[], [], [], [], [], {})

  /** The daemon as its main function leaves it before `run`. */
  function Initial(persisted: string, foreground: bool, corePath: string): Daemon {
    Daemon(EMPTY_SERVER, None, "", persisted, foreground, corePath)
  }
}
