/** The daemon's objects, updated in place, against the protocol's state machine. */
module DaemonObjects {
  import opened Text
  import opened DaemonProtocol
  import opened DaemonLaws

  class DaemonIpcServer {
    var alive: bool
    var clients: set<nat>
    var connections: nat
    var pending: map<string, Pending>
    var queue: seq<Outcome>
    var written: seq<(nat, Response)>
    var tickets: nat
    ghost var registered: seq<Registration>
    ghost var completed: seq<Completion>
    ghost var abandoned: set<nat>

    ghost function State(): Server
      reads this
    {
      Server(alive, clients, connections, pending, queue, written, registered, completed, abandoned)
    }

    ghost predicate Valid()
      reads this
    {
      tickets == |registered|
    }

    constructor ()
      ensures Valid() && State() == EMPTY_SERVER
    {
      alive, clients, connections, pending, queue, written, tickets := true, {}, 0, map[], [], [], 0;
      registered, completed, abandoned := [], [], {};
    }

    method WriteToClient(client: nat, response: Response)
      requires Valid()
      modifies this
      ensures Valid() && State() == Write(old(State()), client, response)
    {
      written := written + [(client, response)];
    }

    method RegisterCommand(client: nat, id: string, command: string, legacy: bool) returns (ok: bool)
      requires Valid()
      modifies this
      ensures Valid() && (State(), ok) == Register(old(State()), client, id, command, legacy)
    {
      if !IsValidRequestId(id) || id in pending {
        WriteToClient(client, Error);
        return false;
      }
      pending := pending[id := Pending(client, command, legacy, tickets)];
      registered := registered + [Registration(client, id, command, legacy)];
      tickets := tickets + 1;
      ok := true;
    }

    method CompleteCommand(id: string, success: bool, detail: string)
      requires Valid()
      modifies this
      ensures Valid() && State() == Complete(old(State()), Outcome(id, success, detail))
    {
      if id !in pending {
        return;
      }
      var p := pending[id];
      pending := pending - {id};
      completed := completed + [Completion(p.ticket, p.client, Outcome(id, success, detail), p.client in clients)];
      if p.client !in clients {
        return;
      }
      var response: Response;
      if p.legacy {
        response := if success then Ack else Error;
      } else {
        response := CommandResult(id, p.command, success, SafeDetail(detail));
      }
      WriteToClient(p.client, response);
    }

    method ClientConnected() returns (client: nat)
      requires Valid()
      modifies this
      ensures Valid() && client == old(connections) && State() == Accept(old(State()))
    {
      client := connections;
      connections := connections + 1;
      clients := clients + {client};
    }

    method ClientDisconnected(client: nat)
      requires Valid()
      modifies this
      ensures Valid() && State() == old(State()).(clients := old(clients) - {client})
    {
      clients := clients - {client};
    }

    /** The server is deleted, and with it what is queued for it. */
    method Deleted()
      requires Valid()
      modifies this
      ensures Valid() && State() == Destroy(old(State()))
    {
      abandoned := abandoned + set id | id in pending :: pending[id].ticket;
      alive, pending, queue := false, map[], [];
    }

    /** The body of the callback handed to the watchdog. */
    method InvokeLater(o: Outcome)
      requires Valid()
      modifies this
      ensures Valid() && State() == Post(old(State()), o)
    {
      if !alive {
        return;
      }
      queue := queue + [o];
    }

    method DeliverNext()
      requires Valid()
      modifies this
      ensures Valid() && State() == Deliver(old(State()))
    {
      if alive && queue != [] {
        var o := queue[0];
        queue := queue[1..];
        CompleteCommand(o.id, o.success, o.detail);
      }
    }
  }

  class MSWindowsWatchdog {
    var command: string
    var elevate: bool
    var process: ProcessState
    var callback: Option<string>
    var failures: nat
    var taken: Option<Outcome>

    function State(): Watchdog
      reads this
    {
      Watchdog(command, elevate, process, callback, failures, taken)
    }

    constructor ()
      ensures State() == FRESH_WATCHDOG
    {
      command, elevate, process, callback, failures, taken := "", false, Idle, None, 0, None;
    }

    /** The part of `setProcessConfig` under the lock: the callbacks to call once it is released. */
    method ChangeConfig(newCommand: string, newElevate: bool, newCallback: Option<string>)
      returns (superseded: Option<string>, immediate: Option<string>)
      modifies this
      ensures (State(), Calls(superseded, immediate)) ==
              SetProcessConfig(old(State()), newCommand, newElevate, newCallback)
    {
      superseded, immediate := callback, None;
      callback := None;
      if command == newCommand && elevate == newElevate {
        if newCommand != "" && process == Running {
          immediate := newCallback;
        } else {
          callback := newCallback;
          if newCommand != "" && process == Idle {
            process := StartPending;
          }
        }
      } else {
        command := newCommand;
        elevate := newElevate;
        if command != "" {
          callback := newCallback;
        }
        if command == "" || process == Running || process == StopPending {
          process := StopPending;
        } else {
          process := StartPending;
        }
      }
    }

    /** Callbacks all belong to `server`; those due are called before the method returns. */
    method SetConfig(newCommand: string, newElevate: bool, newCallback: Option<string>, server: DaemonIpcServer)
      requires server.Valid()
      modifies this, server
      ensures server.Valid()
      ensures var (w, called) := SetProcessConfig(old(State()), newCommand, newElevate, newCallback);
              State() == w && server.State() == PostAll(old(server.State()), called)
    {
      hide SetProcessConfig;
      hide PostAll;
      hide Post;
      var superseded, immediate := ChangeConfig(newCommand, newElevate, newCallback);
      PostTwo(server.State(), superseded, immediate);
      if superseded.Some? {
        server.InvokeLater(Outcome(superseded.value, false, SUPERSEDED));
      }
      if immediate.Some? {
        server.InvokeLater(Outcome(immediate.value, true, ""));
      }
    }

    /** One turn of the main loop, up to releasing the lock. */
    method Turn(t: Turn, foreground: bool)
      requires taken.None?
      modifies this
      ensures State() == MainLoopTurn(old(State()), t, foreground)
    {
      if process == Running && command != "" && !foreground && t.sessionChanged {
        process := StopPending;
      }
      match process {
        case Idle =>
        case StartScheduled =>
          if t.due {
            process := StartPending;
          }
        case StartPending =>
          var error := if command == "" then Some(NO_COMMAND) else t.startError;
          if error.None? {
            failures := 0;
            process := Running;
          } else {
            failures := failures + 1;
            process := if RetryDelay(failures) > 0.0 then StartScheduled else StartPending;
          }
          if callback.Some? {
            taken := Some(Outcome(callback.value, error.None?, if error.None? then "" else error.value));
          }
          callback := None;
        case Running =>
          if !t.up {
            process := StartPending;
          }
        case StopPending =>
          process := if command == "" then Idle else StartPending;
      }
    }

    /** Calling the callback the turn took, outside the lock. */
    method CallTaken(server: DaemonIpcServer)
      requires server.Valid() && taken.Some?
      modifies this, server
      ensures server.Valid()
      ensures State() == old(State()).(flight := None) && server.State() == Post(old(server.State()), old(taken).value)
    {
      var o := taken.value;
      taken := None;
      server.InvokeLater(o);
    }
  }

  lemma PostTwo(s: Server, superseded: Option<string>, immediate: Option<string>)
    ensures var t := if superseded.Some? then Post(s, Outcome(superseded.value, false, SUPERSEDED)) else s;
            PostAll(s, Calls(superseded, immediate)) ==
            if immediate.Some? then Post(t, Outcome(immediate.value, true, "")) else t
  {
    var first := if superseded.Some? then [Outcome(superseded.value, false, SUPERSEDED)] else [];
    var second := if immediate.Some? then [Outcome(immediate.value, true, "")] else [];
    if superseded.Some? {
      assert (first + second)[0] == first[0] && (first + second)[1..] == second;
    } else {
      assert first + second == second;
    }
    var t := if superseded.Some? then Post(s, first[0]) else s;
    assert PostAll(s, first + second) == PostAll(t, second);
    if immediate.Some? {
      assert second[1..] == [] && PostAll(t, second) == PostAll(Post(t, second[0]), []);
    }
  }

  class DaemonApp {
    const server: DaemonIpcServer
    const foreground: bool
    var watchdog: MSWindowsWatchdog?
    var configFile: string
    var persisted: string
    const corePath: string

    ghost function State(): Daemon
      reads this, server, watchdog
    {
      Daemon(server.State(), if watchdog == null then None else Some(watchdog.State()),
             configFile, persisted, foreground, corePath)
    }

    constructor (server: DaemonIpcServer, settings: string, foreground: bool, corePath: string)
      requires server.Valid()
      ensures this.server == server && this.foreground == foreground && watchdog == null
      ensures configFile == "" && persisted == settings && this.corePath == corePath
    {
      this.server := server;
      this.foreground := foreground;
      this.corePath := corePath;
      watchdog, configFile, persisted := null, "", settings;
    }

    method SetConfigFile(id: string, path: string, world: World)
      requires server.Valid()
      modifies this, server
      ensures server.Valid() && watchdog == old(watchdog)
      ensures State() == DaemonProtocol.SetConfigFile(old(State()), id, path, world)
    {
      var error := ValidateConfigFile(path, world);
      if error != "" {
        server.CompleteCommand(id, false, error);
        return;
      }
      configFile := path;
      persisted := path;
      server.CompleteCommand(id, true, "");
    }

    method ApplyWatchdogCommand(id: string, world: World)
      requires server.Valid()
      modifies this, server, watchdog
      ensures server.Valid() && watchdog == old(watchdog)
      ensures State() == DaemonProtocol.ApplyWatchdogCommand(old(State()), id, world)
    {
      hide SetProcessConfig;
      hide PostAll;
      hide Complete;
      hide ValidateConfigFile;
      hide CommandLine;
      hide Signed;
      var error := ValidateConfigFile(configFile, world);
      if error != "" {
        if id != "" {
          server.CompleteCommand(id, false, error);
        }
        return;
      }
      if watchdog == null {
        if id != "" {
          server.CompleteCommand(id, false, NO_WATCHDOG);
        }
        return;
      }
      var modeArg := ModeArg(world.coreMode);
      if modeArg.None? {
        if id != "" {
          server.CompleteCommand(id, false, "invalid core mode in config: " + Signed(world.coreMode));
        }
        return;
      }
      var command := CommandLine(corePath, modeArg.value, configFile);
      watchdog.SetConfig(command, world.elevate, if id == "" then None else Some(id), server);
    }

    method ClearWatchdogCommand(id: string)
      requires server.Valid() && watchdog != null
      modifies this, server, watchdog
      ensures server.Valid() && watchdog == old(watchdog)
      ensures State() == DaemonProtocol.ClearWatchdogCommand(old(State()), id)
    {
      hide SetProcessConfig;
      hide PostAll;
      hide Complete;
      configFile := "";
      persisted := "";
      watchdog.SetConfig("", false, None, server);
      server.CompleteCommand(id, true, "");
    }

    method ClearSettings()
      modifies this
      ensures watchdog == old(watchdog) && State() == DaemonProtocol.ClearSettings(old(State()))
    {
      configFile := "";
      persisted := "";
    }

    /** The start-up part of `run`. */
    method StartUp(world: World)
      requires server.Valid()
      modifies this, server
      ensures server.Valid() && watchdog != null && fresh(watchdog)
      ensures State() == DaemonProtocol.StartUp(old(State()), world)
    {
      hide SetProcessConfig;
      hide PostAll;
      hide Complete;
      hide ValidateConfigFile;
      watchdog := new MSWindowsWatchdog();
      if persisted != "" {
        configFile := persisted;
        ApplyWatchdogCommand("", world);
      }
    }

    /** A client's message: the server registers and answers, the application's handlers run inside it. */
    method ProcessCommand(client: nat, command: string, parts: seq<string>, world: World)
      requires server.Valid() && watchdog != null
      modifies this, server, watchdog
      ensures server.Valid() && watchdog == old(watchdog)
      ensures State() == DaemonProtocol.ProcessCommand(old(State()), client, command, parts, world)
    {
      hide Register;
      hide Complete;
      hide DaemonProtocol.ApplyWatchdogCommand;
      hide DaemonProtocol.ClearWatchdogCommand;
      hide ProcessConfigFile;
      if command == "logLevel" {
        server.WriteToClient(client, if |parts| < 2 || parts[1] == "" then Error else Ack);
      } else if command == "configFile" {
        ConfigFileMessage(client, parts, world);
      } else if command == "start" || command == "stop" {
        if |parts| != 1 && |parts| != 2 {
          server.WriteToClient(client, Error);
          return;
        }
        var legacy := |parts| == 1;
        var id := if legacy then world.legacyId else parts[1];
        var ok := server.RegisterCommand(client, id, command, legacy);
        if !ok {
          return;
        }
        if command == "start" {
          ApplyWatchdogCommand(id, world);
        } else {
          ClearWatchdogCommand(id);
        }
      } else if command == "logPath" {
        server.WriteToClient(client, LogPath);
      } else if command == "clearSettings" {
        ClearSettings();
        server.WriteToClient(client, Ack);
      }
    }

    method ConfigFileMessage(client: nat, parts: seq<string>, world: World)
      requires server.Valid()
      modifies this, server
      ensures server.Valid() && watchdog == old(watchdog)
      ensures State() == ProcessConfigFile(old(State()), client, parts, world)
    {
      hide Register;
      hide Complete;
      hide DaemonProtocol.SetConfigFile;
      if |parts| != 2 {
        server.WriteToClient(client, Error);
        return;
      }
      var argument := parts[1];
      var separator := IndexFrom(argument, '\t', 0);
      if separator == 0 && argument != "" {
        server.WriteToClient(client, Error);
        return;
      }
      var legacy := separator == |argument|;
      var id := if legacy then world.legacyId else argument[..separator];
      var path := if legacy then argument else argument[separator + 1..];
      var ok := server.RegisterCommand(client, id, "configFile", legacy);
      if !ok {
        return;
      }
      if path == "" {
        server.CompleteCommand(id, false, EMPTY_PATH);
        return;
      }
      SetConfigFile(id, path, world);
    }

    /** One step of the daemon: a client's message, a turn or a callback of the watchdog's thread, a
        queued invocation, or a change of the connections. */
    method Perform(step: Step)
      requires server.Valid() && watchdog != null && Inv(State())
      modifies this, server, watchdog
      ensures server.Valid() && watchdog == old(watchdog)
      ensures State() == Next(old(State()), step) && Inv(State())
    {
      hide Inv;
      hide DaemonProtocol.ProcessCommand;
      hide MainLoopTurn;
      hide Post;
      hide Deliver;
      hide Destroy;
      StepKeepsInv(State(), step);
      match step
      case Message(client, command, parts, world) =>
        if server.alive && client in server.clients {
          ProcessCommand(client, command, parts, world);
        }
      case WatchdogTurn(turn) =>
        if watchdog.taken.None? {
          watchdog.Turn(turn, foreground);
        }
      case WatchdogCalls =>
        if watchdog.taken.Some? {
          watchdog.CallTaken(server);
        }
      case DeliverQueued => server.DeliverNext();
      case Connect =>
        if server.alive {
          var client := server.ClientConnected();
        }
      case Disconnect(client) => server.ClientDisconnected(client);
      case DestroyServer => server.Deleted();
    }

    /** Any number of steps: what is proved of runs holds of the objects. */
    method PerformAll(steps: seq<Step>)
      requires server.Valid() && watchdog != null && Inv(State())
      modifies this, server, watchdog
      ensures server.Valid() && watchdog == old(watchdog)
      ensures State() == Run(old(State()), steps) && Inv(State())
    {
      hide Inv;
      hide Next;
      assert steps[0..] == steps;
      for i := 0 to |steps|
        invariant server.Valid() && watchdog == old(watchdog) && Inv(State())
        invariant Run(State(), steps[i..]) == Run(old(State()), steps)
      {
        assert steps[i..][0] == steps[i] && steps[i..][1..] == steps[i + 1..];
        Perform(steps[i]);
      }
      assert steps[|steps|..] == [];
    }
  }

  /** The daemon from its construction through start-up and any steps: every law about runs from start-up is
      a law about these objects. */
  method Serve(persisted: string, foreground: bool, corePath: string, world: World, steps: seq<Step>)
    returns (app: DaemonApp)
    ensures fresh(app) && app.server.Valid() && app.watchdog != null
    ensures app.State() == Reached(persisted, foreground, corePath, world, steps) && Inv(app.State())
  {
    hide Inv;
    hide Run;
    hide DaemonProtocol.StartUp;
    var server := new DaemonIpcServer();
    app := new DaemonApp(server, persisted, foreground, corePath);
    app.StartUp(world);
    StartUpEstablishesInv(persisted, foreground, corePath, world);
    app.PerformAll(steps);
  }
}
