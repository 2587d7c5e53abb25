/** Which core the daemon's start requests and its start-up launch, told from the config file's core mode. */
module DaemonModes {
  import opened Text
  import opened TextLaws
  import opened DaemonProtocol
  import opened DaemonLaws
  import opened DaemonRuns
  import opened DaemonConfig

  // ----- config paths

  /** The path begins with two slashes or with two backslashes. */
  predicate BeginsRemote(path: string) {
    |path| >= 2 && path[0] == path[1] && (path[0] == '/' || path[0] == '\\')
  }

  predicate IsUsable(path: string, world: World) {
    path != "" && !BeginsRemote(path) && world.fileExists(path)
  }

  lemma RemoteIff(path: string)
    ensures IsRemote(path) <==> BeginsRemote(path)
  {
    if |path| >= 2 {
      assert "\\\\" <= path <==> path[0] == '\\' && path[1] == '\\';
      assert "//" <= path <==> path[0] == '/' && path[1] == '/';
    }
  }

  /** A config path is accepted exactly if there is one, it is not remote and the file exists; a remote path
      is refused whether or not the file exists. */
  lemma PathIsAcceptedIff(path: string, world: World)
    ensures ValidateConfigFile(path, world) == "" <==> IsUsable(path, world)
    ensures path == "" ==> ValidateConfigFile(path, world) == "no config file set"
    ensures BeginsRemote(path) ==> ValidateConfigFile(path, world) == "remote config file paths are not allowed"
    ensures path != "" && !BeginsRemote(path) && !world.fileExists(path) ==>
              ValidateConfigFile(path, world) == "config file does not exist: " + path
  {
    RemoteIff(path);
  }

  // ----- launches

  /** The command runs the core as this mode says: 2 is the server, 1 the client, and no other mode runs. */
  ghost predicate IsLaunch(command: string, corePath: string, path: string, mode: int) {
    || (mode == 2 && command == "\"" + corePath + "\" server --settings \"" + path + "\"")
    || (mode == 1 && command == "\"" + corePath + "\" client --settings \"" + path + "\"")
  }

  lemma LaunchIff(command: string, corePath: string, path: string, mode: int)
    ensures ModeArg(mode).Some? && command == CommandLine(corePath, ModeArg(mode).value, path) <==>
            IsLaunch(command, corePath, path, mode)
  {
    var front := "\"" + corePath;
    assert front + "\" " + "server" + " --settings \"" == front + "\" server --settings \"";
    assert front + "\" " + "client" + " --settings \"" == front + "\" client --settings \"";
  }

  lemma ModeIff(mode: int)
    ensures ModeArg(mode).Some? <==> mode == 1 || mode == 2
  {
  }

  /** The server takes a request from a client that is there, under an id of 1 to 64 letters, digits,
      underscores and dashes that no pending request has. */
  ghost predicate IsTaken(s: Server, client: nat, id: string) {
    && s.alive && client in s.clients && id !in s.pending
    && 1 <= |id| <= 64
    && forall i :: 0 <= i < |id| ==> IsLetter(id[i]) || '0' <= id[i] <= '9' || id[i] in {'_', '-'}
  }

  lemma TakenIff(s: Server, client: nat, id: string)
    ensures IsTaken(s, client, id) <==> Admits(s, client, id)
  {
    hide IsLetter;
    hide IsIdChar;
    forall c: char ensures IsIdChar(c) <==> IsLetter(c) || '0' <= c <= '9' || c in {'_', '-'} {
      IdCharIff(c);
    }
  }

  lemma IdCharIff(c: char)
    ensures IsIdChar(c) <==> IsLetter(c) || '0' <= c <= '9' || c in {'_', '-'}
  {
    CharacterClasses(c);
  }

  /** A start request that the server takes. A bare request gets a made-up id. */
  ghost predicate IsStart(d: Daemon, step: Step, id: string) {
    && step.Message? && step.command == "start"
    && ((|step.parts| == 1 && id == step.world.legacyId) || (|step.parts| == 2 && id == step.parts[1]))
    && IsTaken(d.server, step.client, id)
  }

  lemma StartIff(d: Daemon, step: Step)
    ensures step.Message? && step.command == "start" && AdmitsRequest(d.server, step) <==>
            exists id :: IsStart(d, step, id)
    ensures forall id :: IsStart(d, step, id) ==> RequestId(step.parts, step.world.legacyId) == Some(id)
  {
    hide IsTaken;
    hide Admits;
    forall id: string ensures step.Message? ==>
      (IsTaken(d.server, step.client, id) <==> Admits(d.server, step.client, id))
    {
      if step.Message? {
        TakenIff(d.server, step.client, id);
      }
    }
    if step.Message? && step.command == "start" && AdmitsRequest(d.server, step) {
      assert IsStart(d, step, RequestId(step.parts, step.world.legacyId).value);
    }
  }

  lemma StartedIff(d: Daemon, step: Step)
    ensures EventOf(d, step).Started? <==>
            && step.Message? && (exists id :: IsStart(d, step, id))
            && IsUsable(d.configFile, step.world) && step.world.coreMode in {1, 2}
    ensures EventOf(d, step).Started? ==> step.Message? && ModeArg(step.world.coreMode) == Some(EventOf(d, step).arg)
  {
    hide IsStart;
    hide IsUsable;
    hide ValidateConfigFile;
    hide ModeArg;
    hide AdmitsRequest;
    hide ReadConfigRequest;
    StartIff(d, step);
    if step.Message? {
      PathIsAcceptedIff(d.configFile, step.world);
      ModeIff(step.world.coreMode);
    }
  }

  /** A start request with a usable config path sets the watchdog to run the core of its mode. */
  lemma StartLaunches(d: Daemon, step: Step, id: string)
    requires d.watchdog.Some? && IsStart(d, step, id) && IsUsable(d.configFile, step.world)
    requires step.world.coreMode == 1 || step.world.coreMode == 2
    ensures var e := Next(d, step);
            e.watchdog.Some? && IsLaunch(e.watchdog.value.command, d.corePath, d.configFile, step.world.coreMode)
  {
    hide Next;
    hide EventOf;
    hide IsUsable;
    hide IsLetter;
    hide ModeArg;
    hide CommandLine;
    EventsTell(d, step);
    StartedIff(d, step);
    LaunchIff(Next(d, step).watchdog.value.command, d.corePath, d.configFile, step.world.coreMode);
  }

  /** The request is answered at once with this failure, and the watchdog is left as it was. */
  ghost predicate FailsWith(d: Daemon, step: Step, id: string, detail: string) {
    && d.watchdog.Some? && step.Message?
    && var e := Next(d, step);
    && e.watchdog == d.watchdog && e.configFile == d.configFile && e.server.pending == d.server.pending
    && e.server.completed == d.server.completed +
         [Completion(|d.server.registered|, step.client, Outcome(id, false, detail), true)]
    && e.server.written == d.server.written +
         [(step.client, if |step.parts| == 1 then Error else CommandResult(id, "start", false, SafeDetail(detail)))]
  }

  lemma RefusedStart(d: Daemon, step: Step, id: string, detail: string)
    requires d.watchdog.Some? && IsStart(d, step, id)
    requires forall s: Server :: ApplyWatchdogCommand(d.(server := s), id, step.world) ==
                                 d.(server := Complete(s, Outcome(id, false, detail)))
    ensures FailsWith(d, step, id, detail)
  {
    hide Complete;
    hide SafeDetail;
    hide IsValidRequestId;
    hide ApplyWatchdogCommand;
    StartIff(d, step);
    var legacy := |step.parts| == 1;
    var (s, ok) := Register(d.server, step.client, id, "start", legacy);
    CompleteFresh(s, d.server, step.client, id, "start", legacy, Outcome(id, false, detail));
  }

  /** In any other mode it fails, and its failure names the mode in decimal. */
  lemma OtherModesFail(d: Daemon, step: Step, id: string) returns (decimal: string)
    requires d.watchdog.Some? && IsStart(d, step, id) && IsUsable(d.configFile, step.world)
    requires step.world.coreMode != 1 && step.world.coreMode != 2
    ensures Denotes(decimal, step.world.coreMode)
    ensures FailsWith(d, step, id, "invalid core mode in config: " + decimal)
  {
    hide FailsWith;
    hide Denotes;
    hide Signed;
    hide Complete;
    hide IsUsable;
    hide ValidateConfigFile;
    PathIsAcceptedIff(d.configFile, step.world);
    ModeIff(step.world.coreMode);
    decimal := Signed(step.world.coreMode);
    SignedDenotes(step.world.coreMode);
    assert id != "";
    RefusedStart(d, step, id, "invalid core mode in config: " + decimal);
  }

  /** Without a usable config path it fails as the path is found, whatever the mode. */
  lemma UnusablePathFails(d: Daemon, step: Step, id: string)
    requires d.watchdog.Some? && IsStart(d, step, id) && !IsUsable(d.configFile, step.world)
    ensures FailsWith(d, step, id, if d.configFile == "" then "no config file set"
                                   else if BeginsRemote(d.configFile) then "remote config file paths are not allowed"
                                   else "config file does not exist: " + d.configFile)
  {
    hide FailsWith;
    hide Complete;
    hide ValidateConfigFile;
    hide BeginsRemote;
    PathIsAcceptedIff(d.configFile, step.world);
    assert id != "";
    RefusedStart(d, step, id, ValidateConfigFile(d.configFile, step.world));
  }

  // ----- config paths from clients

  /** A config file message that the server takes: the old form is the path alone and gets a made-up id. */
  ghost predicate IsConfig(d: Daemon, step: Step, id: string, path: string) {
    && step.Message? && step.command == "configFile" && |step.parts| == 2
    && (step.parts[1] == id + "\t" + path ||
        ('\t' !in step.parts[1] && id == step.world.legacyId && path == step.parts[1]))
    && IsTaken(d.server, step.client, id)
  }

  lemma ConfigIsRead(d: Daemon, step: Step, id: string, path: string)
    requires IsConfig(d, step, id, path)
    ensures ReadConfigRequest(step.parts, step.world.legacyId) ==
            Some(ConfigRequest(id, path, '\t' !in step.parts[1]))
  {
    hide IsLetter;
    forall i | 0 <= i < |id| ensures id[i] != '\t' {
      IdCharIff(id[i]);
      TakenIff(d.server, step.client, id);
    }
    if '\t' in step.parts[1] {
      ConfigRequestIs("", id, path, step.world.legacyId);
      assert step.parts[1] == id + "\t" + path;
    } else {
      assert (id + "\t" + path)[|id|] == '\t';
      ConfigRequestIs(path, "", "", step.world.legacyId);
    }
  }

  function ConfigReason(path: string, world: World): string {
    if IsUsable(path, world) then ""
    else if path == "" then "config file path is empty"
    else if BeginsRemote(path) then "remote config file paths are not allowed"
    else "config file does not exist: " + path
  }

  /** A usable path is stored and persisted, any other changes neither; both are answered at once. */
  lemma ConfigIsAnswered(d: Daemon, step: Step, id: string, path: string)
    requires d.watchdog.Some? && IsConfig(d, step, id, path)
    ensures var e, ok, detail := Next(d, step), IsUsable(path, step.world), ConfigReason(path, step.world);
            && e.watchdog == d.watchdog && e.server.pending == d.server.pending
            && (e.configFile, e.persisted) == (if ok then (path, path) else (d.configFile, d.persisted))
            && e.server.completed == d.server.completed +
                 [Completion(|d.server.registered|, step.client, Outcome(id, ok, detail), true)]
            && e.server.written == d.server.written +
                 [(step.client, if '\t' !in step.parts[1] then (if ok then Ack else Error)
                                else CommandResult(id, "configFile", ok, SafeDetail(detail)))]
  {
    hide Complete;
    hide SafeDetail;
    hide IsValidRequestId;
    hide ValidateConfigFile;
    hide ReadConfigRequest;
    hide BeginsRemote;
    TakenIff(d.server, step.client, id);
    ConfigIsRead(d, step, id, path);
    PathIsAcceptedIff(path, step.world);
    var legacy, ok := '\t' !in step.parts[1], IsUsable(path, step.world);
    var (s, admitted) := Register(d.server, step.client, id, "configFile", legacy);
    CompleteFresh(s, d.server, step.client, id, "configFile", legacy, Outcome(id, ok, ConfigReason(path, step.world)));
  }

  // ----- start-up and runs

  lemma NothingApplied(d: Daemon, world: World)
    ensures !IsUsable(d.configFile, world) || world.coreMode !in {1, 2} ==> ApplyWatchdogCommand(d, "", world) == d
  {
    hide IsUsable;
    hide ValidateConfigFile;
    PathIsAcceptedIff(d.configFile, world);
    ModeIff(world.coreMode);
  }

  /** Before start-up there is no watchdog, and a start says so. */
  lemma NoWatchdogFails(d: Daemon, id: string, world: World)
    requires d.watchdog.None? && IsUsable(d.configFile, world) && id != ""
    ensures ApplyWatchdogCommand(d, id, world) ==
            d.(server := Complete(d.server, Outcome(id, false, "watchdog is not initialized")))
  {
    hide IsUsable;
    hide ValidateConfigFile;
    PathIsAcceptedIff(d.configFile, world);
  }

  /** Start-up launches the persisted config in its mode, or nothing. */
  lemma StartUpLaunches(persisted: string, foreground: bool, corePath: string, world: World)
    ensures var d := StartUp(Initial(persisted, foreground, corePath), world);
            && d.watchdog.Some? && d.corePath == corePath
            && if IsUsable(persisted, world) && world.coreMode in {1, 2}
               then IsLaunch(d.watchdog.value.command, corePath, persisted, world.coreMode)
               else d.watchdog.value == Watchdog("", false, Idle, None, 0, None)
  {
    hide IsLaunch;
    hide IsUsable;
    hide ValidateConfigFile;
    hide ModeArg;
    hide CommandLine;
    hide ApplyWatchdogCommand;
    var launched := Daemon(EMPTY_SERVER, Some(FRESH_WATCHDOG), persisted, persisted, foreground, corePath);
    ApplySets(launched, "", world);
    PathIsAcceptedIff(persisted, world);
    ModeIff(world.coreMode);
    NothingApplied(launched, world);
    LaunchIff(StartUp(Initial(persisted, foreground, corePath), world).watchdog.value.command,
              corePath, persisted, world.coreMode);
  }

  /** Step `i` of the run is a start request that launches `command`. */
  ghost predicate LaunchesAt(d: Daemon, steps: seq<Step>, i: nat, command: string)
    requires d.watchdog.Some?
  {
    && i < |steps| && steps[i].Message?
    && var before, world := Run(d, steps[..i]), steps[i].world;
    && (exists id :: IsStart(before, steps[i], id)) && IsUsable(before.configFile, world)
    && IsLaunch(command, d.corePath, before.configFile, world.coreMode)
  }

  lemma {:induction false} CoreStays(d: Daemon, steps: seq<Step>)
    requires d.watchdog.Some?
    ensures Run(d, steps).corePath == d.corePath
    decreases |steps|
  {
    hide Next;
    hide EventOf;
    if steps != [] {
      EventsTell(d, steps[0]);
      CoreStays(Next(d, steps[0]), steps[1..]);
    }
  }

  lemma OriginLaunches(d: Daemon, steps: seq<Step>, i: nat, command: string)
    requires d.watchdog.Some? && StartsAt(d, steps, i, command)
    ensures LaunchesAt(d, steps, i, command)
  {
    hide Run;
    hide EventOf;
    hide IsStart;
    hide IsUsable;
    hide ModeArg;
    hide CommandLine;
    hide ValidateConfigFile;
    var before := Run(d, steps[..i]);
    CoreStays(d, steps[..i]);
    StartedIff(before, steps[i]);
    LaunchIff(command, d.corePath, before.configFile, steps[i].world.coreMode);
  }

  /** Over every run from start-up: what the watchdog is set to run was launched by start-up or by a start
      request of the run, from a config path usable then, and is the core of the mode found then. */
  lemma WhatRunsWasLaunched(persisted: string, foreground: bool, corePath: string, world: World, steps: seq<Step>)
    ensures var start := StartUp(Initial(persisted, foreground, corePath), world);
            var command := Reached(persisted, foreground, corePath, world, steps).watchdog.value.command;
            && start.watchdog.Some?
            && (command == "" || (exists i :: LaunchesAt(start, steps, i, command))
                || (IsUsable(persisted, world) && IsLaunch(command, corePath, persisted, world.coreMode)))
  {
    hide Run;
    hide StartUp;
    hide StartsAt;
    hide LaunchesAt;
    hide IsLaunch;
    hide IsUsable;
    StartUpLaunches(persisted, foreground, corePath, world);
    var start := StartUp(Initial(persisted, foreground, corePath), world);
    var command := Reached(persisted, foreground, corePath, world, steps).watchdog.value.command;
    CommandHasOrigin(start, steps);
    if exists i :: StartsAt(start, steps, i, command) {
      var i: nat :| StartsAt(start, steps, i, command);
      OriginLaunches(start, steps, i, command);
    }
  }

  // ----- answers

  /** A result stays one line of four fields: its breaks and tabs are blanks, the rest stands. */
  lemma DetailStaysOnItsLine(detail: string, i: nat)
    requires i < |detail|
    ensures |SafeDetail(detail)| == |detail|
    ensures SafeDetail(detail)[i] == if detail[i] in {'\r', '\n', '\t'} then ' ' else detail[i]
  {
  }
}
