/** What the daemon's watchdog is set to run, and what its config path is, told from the messages. */
module DaemonConfig {
  import opened Text
  import opened DaemonProtocol
  import opened DaemonLaws
  import opened DaemonRuns

  // ----- what a step does, told before it happens

  /** A step as the configuration sees it: a start accepted in some core mode, a config path accepted,
      the settings cleared, a stop accepted, or none of these. */
  datatype Event = Started(arg: string) | Configured(path: string) | Cleared | Halted | Nothing

  predicate Connected(s: Server, client: nat) {
    s.alive && client in s.clients
  }

  predicate Admits(s: Server, client: nat, id: string) {
    Connected(s, client) && IsValidRequestId(id) && id !in s.pending
  }

  /** The id of a start or stop request. */
  function RequestId(parts: seq<string>, legacyId: string): Option<string> {
    if |parts| == 1 then Some(legacyId) else if |parts| == 2 then Some(parts[1]) else None
  }

  predicate AdmitsRequest(s: Server, step: Step)
    requires step.Message?
  {
    var id := RequestId(step.parts, step.world.legacyId);
    id.Some? && Admits(s, step.client, id.value)
  }

  /** Told from the state before the step alone, by the guards of the handlers. */
  function EventOf(d: Daemon, step: Step): Event {
    if !step.Message? then Nothing
    else if step.command == "clearSettings" then (if Connected(d.server, step.client) then Cleared else Nothing)
    else if step.command == "stop" then (if AdmitsRequest(d.server, step) then Halted else Nothing)
    else if step.command == "start" then
      if AdmitsRequest(d.server, step) && ValidateConfigFile(d.configFile, step.world) == "" &&
         ModeArg(step.world.coreMode).Some?
      then Started(ModeArg(step.world.coreMode).value) else Nothing
    else if step.command == "configFile" then
      match ReadConfigRequest(step.parts, step.world.legacyId)
      case None => Nothing
      case Some(r) =>
        if Admits(d.server, step.client, r.id) && ValidateConfigFile(r.path, step.world) == ""
        then Configured(r.path) else Nothing
    else Nothing
  }

  function PathAfter(path: string, event: Event): string {
    match event
    case Configured(p) => p
    case Cleared => ""
    case Halted => ""
    case _ => path
  }

  function CommandAfter(d: Daemon, command: string, event: Event): string {
    match event
    case Started(arg) => CommandLine(d.corePath, arg, d.configFile)
    case Halted => ""
    case _ => command
  }

  lemma ApplySets(d: Daemon, id: string, world: World)
    requires d.watchdog.Some?
    ensures var e := ApplyWatchdogCommand(d, id, world);
            && e.watchdog.Some? && e.configFile == d.configFile && e.corePath == d.corePath
            && e.watchdog.value.command ==
                 if ValidateConfigFile(d.configFile, world) == "" && ModeArg(world.coreMode).Some?
                 then CommandLine(d.corePath, ModeArg(world.coreMode).value, d.configFile)
                 else d.watchdog.value.command
  {
    hide Complete;
    hide ValidateConfigFile;
    hide ModeArg;
    hide CommandLine;
    hide PostAll;
  }

  lemma ClearSets(d: Daemon, id: string)
    requires d.watchdog.Some?
    ensures var e := ClearWatchdogCommand(d, id);
            e.watchdog.Some? && e.watchdog.value.command == "" && e.configFile == "" && e.corePath == d.corePath
  {
    hide Complete;
    hide PostAll;
  }

  lemma TurnKeepsCommand(w: Watchdog, t: Turn, foreground: bool)
    ensures MainLoopTurn(w, t, foreground).command == w.command
  {
  }

  lemma StartOrStopTells(d: Daemon, step: Step)
    requires d.watchdog.Some? && step.Message? && (step.command == "start" || step.command == "stop")
    requires Connected(d.server, step.client)
    ensures var e, event := Next(d, step), EventOf(d, step);
            && e.watchdog.Some? && e.corePath == d.corePath && e.configFile == PathAfter(d.configFile, event)
            && e.watchdog.value.command == CommandAfter(d, d.watchdog.value.command, event)
  {
    hide Complete;
    hide IsValidRequestId;
    hide ApplyWatchdogCommand;
    hide ClearWatchdogCommand;
    hide ValidateConfigFile;
    hide ModeArg;
    hide CommandLine;
    var parts, world := step.parts, step.world;
    if |parts| == 1 || |parts| == 2 {
      var id := if |parts| == 1 then world.legacyId else parts[1];
      var (s, ok) := Register(d.server, step.client, id, step.command, |parts| == 1);
      ApplySets(d.(server := s), id, world);
      ClearSets(d.(server := s), id);
    }
  }

  /** The event tells exactly what a step does to the config path and to the command to run. */
  lemma EventsTell(d: Daemon, step: Step)
    requires d.watchdog.Some?
    ensures var e, event := Next(d, step), EventOf(d, step);
            && e.watchdog.Some? && e.corePath == d.corePath && e.configFile == PathAfter(d.configFile, event)
            && e.watchdog.value.command == CommandAfter(d, d.watchdog.value.command, event)
  {
    hide Complete;
    hide IsValidRequestId;
    hide StartOrStop;
    hide ValidateConfigFile;
    hide ModeArg;
    hide CommandLine;
    hide MainLoopTurn;
    hide Deliver;
    hide Destroy;
    hide ReadConfigRequest;
    WatchdogStays(d, step);
    NoPathIsNoConfig(step);
    match step
    case Message(client, command, parts, world) =>
      if (command == "start" || command == "stop") && Connected(d.server, client) {
        StartOrStopTells(d, step);
      }
    case WatchdogTurn(turn) => TurnKeepsCommand(d.watchdog.value, turn, d.foreground);
    case _ =>
  }

  lemma NoPathIsNoConfig(step: Step)
    ensures step.Message? ==> ValidateConfigFile("", step.world) != ""
  {
  }

  // ----- over runs

  function Events(d: Daemon, steps: seq<Step>): (events: seq<Event>)
    requires d.watchdog.Some?
    ensures |events| == |steps|
    decreases |steps|
  {
    if steps == [] then []
    else
      WatchdogStays(d, steps[0]);
      [EventOf(d, steps[0])] + Events(Next(d, steps[0]), steps[1..])
  }

  /** `built` is the path in the last accepted start since the last stop, `configured` the path last
      accepted and not cleared since. */
  datatype Track = Track(built: Option<string>, configured: string)

  function Follow(t: Track, event: Event): Track {
    match event
    case Started(_) => t.(built := Some(t.configured))
    case Configured(p) => t.(configured := p)
    case Cleared => t.(configured := "")
    case Halted => Track(None, "")
    case Nothing => t
  }

  function FollowAll(t: Track, events: seq<Event>): Track
    decreases |events|
  {
    if events == [] then t else FollowAll(Follow(t, events[0]), events[1..])
  }

  /** The command was built for this path. */
  ghost predicate IsCommandFor(d: Daemon, command: string, path: string) {
    exists arg :: arg in {"server", "client"} && command == CommandLine(d.corePath, arg, path)
  }

  ghost predicate Agrees(d: Daemon, t: Track) {
    && d.watchdog.Some? && d.configFile == t.configured
    && match t.built
       case None => d.watchdog.value.command == ""
       case Some(path) => path != "" && IsCommandFor(d, d.watchdog.value.command, path)
  }

  lemma StepIsFollowed(d: Daemon, step: Step, t: Track)
    requires Agrees(d, t)
    ensures Agrees(Next(d, step), Follow(t, EventOf(d, step)))
  {
    hide Next;
    hide CommandLine;
    hide ValidateConfigFile;
    EventsTell(d, step);
    StartedInMode(d, step);
    NoPathIsNoConfig(step);
    var e, event := Next(d, step), EventOf(d, step);
    if event.Started? {
      assert IsCommandFor(e, e.watchdog.value.command, d.configFile);
    } else if t.built.Some? && !event.Halted? {
      assert IsCommandFor(e, e.watchdog.value.command, t.built.value);
    }
  }

  lemma StartedInMode(d: Daemon, step: Step)
    ensures var event := EventOf(d, step);
            event.Started? ==>
                event.arg in {"server", "client"} && step.Message? && ValidateConfigFile(d.configFile, step.world) == ""
  {
    hide ReadConfigRequest;
    hide ValidateConfigFile;
    hide AdmitsRequest;
  }

  /** Over every run the events account for the config path and for the command. */
  lemma {:induction false} RunIsFollowed(d: Daemon, steps: seq<Step>, t: Track)
    requires Agrees(d, t)
    ensures Agrees(Run(d, steps), FollowAll(t, Events(d, steps)))
    decreases |steps|
  {
    hide Next;
    hide EventOf;
    hide Agrees;
    hide Follow;
    AgreesHasWatchdog(d, t);
    if steps != [] {
      WatchdogStays(d, steps[0]);
      StepIsFollowed(d, steps[0], t);
      RunIsFollowed(Next(d, steps[0]), steps[1..], Follow(t, EventOf(d, steps[0])));
      var events := Events(d, steps);
      assert events[0] == EventOf(d, steps[0]) && events[1..] == Events(Next(d, steps[0]), steps[1..]);
    }
  }

  lemma AgreesHasWatchdog(d: Daemon, t: Track)
    requires Agrees(d, t)
    ensures d.watchdog.Some?
  {
  }

  /** Where start-up leaves off. */
  function StartTrack(persisted: string, world: World): Track {
    Track(if ValidateConfigFile(persisted, world) == "" && ModeArg(world.coreMode).Some? then Some(persisted) else None,
          persisted)
  }

  lemma StartUpIsFollowed(persisted: string, foreground: bool, corePath: string, world: World)
    ensures Agrees(StartUp(Initial(persisted, foreground, corePath), world), StartTrack(persisted, world))
  {
    hide ValidateConfigFile;
    hide CommandLine;
    hide ApplyWatchdogCommand;
    var launched := Daemon(EMPTY_SERVER, Some(FRESH_WATCHDOG), persisted, persisted, foreground, corePath);
    var d := StartUp(Initial(persisted, foreground, corePath), world);
    ApplySets(launched, "", world);
    NoPathIsNoConfig(Message(0, "", [], world));
    if StartTrack(persisted, world).built.Some? {
      assert IsCommandFor(d, d.watchdog.value.command, persisted);
    }
  }

  /** What the watchdog is set to run, if anything, belongs to the config path. */
  ghost predicate RunsItsConfig(d: Daemon) {
    d.watchdog.Some? && (d.watchdog.value.command == "" || IsCommandFor(d, d.watchdog.value.command, d.configFile))
  }

  /** A command tells the path it was built for. */
  lemma CommandTellsPath(d: Daemon, command: string, p: string, q: string)
    requires IsCommandFor(d, command, p) && IsCommandFor(d, command, q)
    ensures p == q && command != ""
  {
    var a :| a in {"server", "client"} && command == CommandLine(d.corePath, a, p);
    var b :| b in {"server", "client"} && command == CommandLine(d.corePath, b, q);
    var k := |"\"" + d.corePath + "\" server --settings \""|;
    assert |a| == 6 && |b| == 6;
    assert |command| == k + |p| + 1 && |command| == k + |q| + 1;
    assert command[k..k + |p|] == p && command[k..k + |q|] == q;
  }

  /** Over every run from start-up: what is set to run belongs to the config path exactly when nothing
      is, or the path of the last start is the one configured since. */
  lemma RunsItsConfigIff(persisted: string, foreground: bool, corePath: string, world: World, steps: seq<Step>)
    ensures var start := StartUp(Initial(persisted, foreground, corePath), world);
            && start.watchdog.Some?
            && var t := FollowAll(StartTrack(persisted, world), Events(start, steps));
            RunsItsConfig(Run(start, steps)) <==> t.built.None? || t.built.value == t.configured
  {
    hide Run;
    hide Events;
    hide FollowAll;
    hide StartTrack;
    hide StartUp;
    hide IsCommandFor;
    var start := StartUp(Initial(persisted, foreground, corePath), world);
    StartUpIsFollowed(persisted, foreground, corePath, world);
    RunIsFollowed(start, steps, StartTrack(persisted, world));
    var d, t := Run(start, steps), FollowAll(StartTrack(persisted, world), Events(start, steps));
    if t.built.Some? {
      CommandTellsPath(d, d.watchdog.value.command, t.built.value, t.built.value);
      if IsCommandFor(d, d.watchdog.value.command, d.configFile) {
        CommandTellsPath(d, d.watchdog.value.command, t.built.value, d.configFile);
      }
    }
  }

  /** A client connects and clears the settings. */
  function ClearingRun(world: World): seq<Step> {
    [Connect, Message(0, "clearSettings", ["clearSettings"], world)]
  }

  /** A client connects and sets a config path. */
  function ReplacingRun(id: string, path: string, world: World): seq<Step> {
    [Connect, Message(0, "configFile", ["configFile", id + "\t" + path], world)]
  }

  lemma TwoEvents(start: Daemon, step: Step)
    requires start.watchdog.Some? && start.server == EMPTY_SERVER && step.Message?
    ensures Next(start, Connect).watchdog.Some?
    ensures Next(start, Connect) == start.(server := EMPTY_SERVER.(clients := {0}, connections := 1))
    ensures Events(start, [Connect, step]) == [Nothing, EventOf(Next(start, Connect), step)]
  {
    hide EventOf;
    var rest := [Connect, step][1..];
    assert rest == [step] && rest[1..] == [];
    assert EMPTY_SERVER.clients + {0} == {0};
    assert EventOf(start, Connect) == Nothing by {
      ConnectIsNothing(start);
    }
    WatchdogStays(Next(start, Connect), step);
    var d := Next(start, Connect);
    assert Events(d, [step]) == [EventOf(d, step)] + Events(Next(d, step), []);
  }

  lemma ConnectIsNothing(d: Daemon)
    ensures EventOf(d, Connect) == Nothing
  {
  }

  /** Clearing the settings forgets the path and leaves what runs: whatever path start-up ran, after this
      run the daemon runs a command that belongs to no configured path. */
  lemma ClearingLeavesTheCommand(persisted: string, foreground: bool, corePath: string, world: World)
    requires ValidateConfigFile(persisted, world) == "" && ModeArg(world.coreMode).Some?
    ensures var d := Reached(persisted, foreground, corePath, world, ClearingRun(world));
            && d.configFile == "" && d.persisted == "" && IsCommandFor(d, d.watchdog.value.command, persisted)
            && !RunsItsConfig(d)
  {
    hide Run;
    hide StartUp;
    hide Next;
    hide ValidateConfigFile;
    hide IsCommandFor;
    hide Events;
    var start, steps := StartUp(Initial(persisted, foreground, corePath), world), ClearingRun(world);
    StartUpIsQuiet(persisted, foreground, corePath, world);
    TwoEvents(start, steps[1]);
    RunIsFollowed(start, steps, StartTrack(persisted, world));
    RunsItsConfigIff(persisted, foreground, corePath, world, steps);
    NoPathIsNoConfig(steps[1]);
    PathsAgree(persisted, foreground, corePath, world, steps);
    assert Events(start, steps) == [Nothing, Cleared];
    FollowTwo(StartTrack(persisted, world), Nothing, Cleared);
  }

  lemma FollowTwo(t: Track, a: Event, b: Event)
    ensures FollowAll(t, [a, b]) == Follow(Follow(t, a), b)
  {
    hide Follow;
    assert [a, b][1..] == [b] && [b][1..] == [];
    assert FollowAll(Follow(t, a), [b]) == FollowAll(Follow(Follow(t, a), b), []);
  }

  lemma StartUpIsQuiet(persisted: string, foreground: bool, corePath: string, world: World)
    ensures var start := StartUp(Initial(persisted, foreground, corePath), world);
            && start.watchdog.Some? && start.server == EMPTY_SERVER && Agrees(start, StartTrack(persisted, world))
            && Inv(start)
  {
    hide Inv;
    hide Agrees;
    hide IsBuiltCommand;
    hide ValidateConfigFile;
    hide ModeArg;
    hide CommandLine;
    hide SetProcessConfig;
    StartUpEstablishesInv(persisted, foreground, corePath, world);
    StartUpIsFollowed(persisted, foreground, corePath, world);
    InvHasWatchdog(StartUp(Initial(persisted, foreground, corePath), world));
    if persisted != "" && ValidateConfigFile(persisted, world) == "" && ModeArg(world.coreMode).Some? {
      AcceptedIsLocal(persisted, world);
      BuiltCommand(corePath, world.coreMode, persisted);
      FreshConfig(CommandLine(corePath, ModeArg(world.coreMode).value, persisted), world.elevate);
    }
  }

  lemma PathsAgree(persisted: string, foreground: bool, corePath: string, world: World, steps: seq<Step>)
    ensures var d := Reached(persisted, foreground, corePath, world, steps); d.configFile == d.persisted
  {
    hide Run;
    hide StartUp;
    hide Places;
    hide Accounts;
    StartUpEstablishesInv(persisted, foreground, corePath, world);
    RunKeepsInv(StartUp(Initial(persisted, foreground, corePath), world), steps);
  }

  /** What a config file message asks for: with a tab, the id before it and the path after it; without one,
      the path in the old form; nothing if the id is missing. */
  lemma ConfigRequestIs(argument: string, id: string, path: string, legacyId: string)
    requires forall i :: 0 <= i < |id| ==> id[i] != '\t'
    requires forall i :: 0 <= i < |argument| ==> argument[i] != '\t'
    ensures ReadConfigRequest(["configFile", argument], legacyId) == Some(ConfigRequest(legacyId, argument, true))
    ensures ReadConfigRequest(["configFile", id + "\t" + path], legacyId) ==
            if id == "" then None else Some(ConfigRequest(id, path, false))
  {
    assert IndexFrom(argument, '\t', 0) == |argument|;
    var t := id + "\t" + path;
    assert t[|id|] == '\t' && forall i :: 0 <= i < |id| ==> t[i] == id[i];
    assert IndexFrom(t, '\t', 0) == |id|;
    assert t[..|id|] == id && t[|id| + 1..] == path;
  }

  lemma ConfigRequestReadsBack(id: string, path: string, legacyId: string)
    requires IsValidRequestId(id)
    ensures ReadConfigRequest(["configFile", id + "\t" + path], legacyId) == Some(ConfigRequest(id, path, false))
  {
    ConfigRequestIs("", id, path, legacyId);
  }

  /** So does accepting another path: the new one takes effect only with the next start. */
  lemma ReplacingLeavesTheCommand(
    persisted: string, foreground: bool, corePath: string, world: World, id: string, path: string)
    requires ValidateConfigFile(persisted, world) == "" && ModeArg(world.coreMode).Some?
    requires ValidateConfigFile(path, world) == "" && path != persisted && IsValidRequestId(id)
    ensures var d := Reached(persisted, foreground, corePath, world, ReplacingRun(id, path, world));
            && d.configFile == path && d.persisted == path && IsCommandFor(d, d.watchdog.value.command, persisted)
            && !RunsItsConfig(d)
  {
    hide Run;
    hide StartUp;
    hide Next;
    hide ValidateConfigFile;
    hide IsValidRequestId;
    hide IsCommandFor;
    hide Events;
    var start, steps := StartUp(Initial(persisted, foreground, corePath), world), ReplacingRun(id, path, world);
    StartUpIsQuiet(persisted, foreground, corePath, world);
    TwoEvents(start, steps[1]);
    RunIsFollowed(start, steps, StartTrack(persisted, world));
    RunsItsConfigIff(persisted, foreground, corePath, world, steps);
    PathsAgree(persisted, foreground, corePath, world, steps);
    ConfigRequestReadsBack(id, path, world.legacyId);
    assert Events(start, steps) == [Nothing, Configured(path)];
    FollowTwo(StartTrack(persisted, world), Nothing, Configured(path));
  }

  // ----- commands come from validated paths

  /** The one way a step gives the watchdog another command to run: a start request, admitted, for
      a config path that validates in that step, and a core mode. */
  ghost predicate IsValidatedStart(d: Daemon, step: Step, command: string) {
    && EventOf(d, step).Started? && step.Message?
    && ValidateConfigFile(d.configFile, step.world) == "" && ModeArg(step.world.coreMode).Some?
    && command == CommandLine(d.corePath, ModeArg(step.world.coreMode).value, d.configFile)
  }

  lemma CommandsComeFromValidatedPaths(d: Daemon, step: Step)
    requires d.watchdog.Some?
    ensures var e := Next(d, step);
            && e.watchdog.Some?
            && (e.watchdog.value.command != d.watchdog.value.command && e.watchdog.value.command != "" ==>
                  IsValidatedStart(d, step, e.watchdog.value.command))
  {
    hide Next;
    hide ValidateConfigFile;
    hide ModeArg;
    hide CommandLine;
    hide ReadConfigRequest;
    hide AdmitsRequest;
    EventsTell(d, step);
  }

  /** Start-up runs the persisted config, if its path validates then, and nothing else. */
  lemma StartUpCommand(persisted: string, foreground: bool, corePath: string, world: World)
    ensures var d := StartUp(Initial(persisted, foreground, corePath), world);
            && d.watchdog.Some?
            && (d.watchdog.value.command != "" ==>
                IsValidatedStartUp(persisted, corePath, world, d.watchdog.value.command))
  {
    hide Complete;
    hide ValidateConfigFile;
    hide ModeArg;
    hide CommandLine;
    hide PostAll;
    hide ApplyWatchdogCommand;
    var launched := Daemon(EMPTY_SERVER, Some(FRESH_WATCHDOG), persisted, persisted, foreground, corePath);
    ApplySets(launched, "", world);
  }

  ghost predicate IsValidatedStartUp(persisted: string, corePath: string, world: World, command: string) {
    && ValidateConfigFile(persisted, world) == "" && ModeArg(world.coreMode).Some?
    && command == CommandLine(corePath, ModeArg(world.coreMode).value, persisted)
  }

  /** Step `i` of the run is a start request that builds `command`. */
  ghost predicate StartsAt(d: Daemon, steps: seq<Step>, i: nat, command: string)
    requires d.watchdog.Some?
  {
    i < |steps| && IsValidatedStart(Run(d, steps[..i]), steps[i], command)
  }

  lemma {:induction false} CommandHasOrigin(d: Daemon, steps: seq<Step>)
    requires d.watchdog.Some?
    ensures var command := Run(d, steps).watchdog.value.command;
            command == "" || command == d.watchdog.value.command || exists i :: StartsAt(d, steps, i, command)
    decreases |steps|
  {
    hide Next;
    hide Run;
    hide IsValidatedStart;
    if steps == [] {
      RunOne(d, DeliverQueued, []);
    } else {
      var front, last := steps[..|steps| - 1], steps[|steps| - 1];
      var mid, command := Run(d, front), Run(d, steps).watchdog.value.command;
      assert steps == front + [last];
      RunConcat(d, front, [last]);
      RunOne(mid, last, []);
      assert [last] + [] == [last];
      RunOne(Next(mid, last), last, []);
      CommandHasOrigin(d, front);
      CommandsComeFromValidatedPaths(mid, last);
      if command != "" && command != d.watchdog.value.command {
        if command == mid.watchdog.value.command {
          var i: nat :| StartsAt(d, front, i, command);
          assert front[..i] == steps[..i];
          assert StartsAt(d, steps, i, command);
        } else {
          assert StartsAt(d, steps, |front|, command);
        }
      }
    }
  }

  /** Over every run from start-up: what the watchdog is set to run was built by start-up or by a start
      request of that run, for a config path that validated in that very step; it starts nothing
      without a command, and a request waits for it only while there is one. */
  lemma WhatRunsWasValidated(persisted: string, foreground: bool, corePath: string, world: World, steps: seq<Step>)
    ensures var start := StartUp(Initial(persisted, foreground, corePath), world);
            var w := Reached(persisted, foreground, corePath, world, steps).watchdog.value;
            && start.watchdog.Some?
            && (w.command == "" || IsValidatedStartUp(persisted, corePath, world, w.command) ||
                exists i :: StartsAt(start, steps, i, w.command))
            && (w.process == StartPending || w.slot.Some? ==> w.command != "")
            && (w.process == Idle ==> w.command == "")
  {
    hide Run;
    hide StartUp;
    hide IsValidatedStartUp;
    hide StartsAt;
    hide Accounts;
    hide Placed;
    hide IsBuiltCommand;
    StartUpCommand(persisted, foreground, corePath, world);
    StartUpEstablishesInv(persisted, foreground, corePath, world);
    CommandHasOrigin(StartUp(Initial(persisted, foreground, corePath), world), steps);
    RunKeepsInv(StartUp(Initial(persisted, foreground, corePath), world), steps);
  }

  // ----- a stop stays a stop

  /** Nothing is configured and nothing is to run. */
  ghost predicate Stopped(d: Daemon) {
    d.watchdog.Some? && d.configFile == "" && d.watchdog.value.command == ""
  }

  lemma StopStops(d: Daemon, step: Step)
    requires d.watchdog.Some? && EventOf(d, step).Halted?
    ensures Stopped(Next(d, step))
  {
    hide Next;
    hide EventOf;
    EventsTell(d, step);
  }

  /** Only an accepted config path ends it. */
  lemma StoppedStays(d: Daemon, step: Step)
    requires Stopped(d)
    ensures Stopped(Next(d, step)) <==> !EventOf(d, step).Configured?
  {
    hide Next;
    hide AdmitsRequest;
    hide ReadConfigRequest;
    EventsTell(d, step);
    NoPathIsNoConfig(step);
    StartedInMode(d, step);
  }

  /** An admitted start request is refused at once: its client is told that no config file is set, it is
      not pending afterwards, and the watchdog is left as it was. */
  ghost predicate Refuses(d: Daemon, step: Step)
    requires step.Message? && RequestId(step.parts, step.world.legacyId).Some?
  {
    var id := RequestId(step.parts, step.world.legacyId).value;
    && d.watchdog.Some?
    && var e := Next(d, step);
    && Stopped(e) && e.watchdog == d.watchdog && id !in e.server.pending
    && e.server.completed == d.server.completed +
         [Completion(|d.server.registered|, step.client, Outcome(id, false, NO_CONFIG), true)]
    && e.server.written == d.server.written +
         [(step.client, if |step.parts| == 1 then Error else CommandResult(id, "start", false, NO_CONFIG))]
  }

  lemma StartIsRefused(d: Daemon, step: Step)
    requires Stopped(d) && step.Message? && step.command == "start" && AdmitsRequest(d.server, step)
    ensures Refuses(d, step)
  {
    hide SafeDetail;
    hide IsValidRequestId;
    hide Complete;
    var legacy := |step.parts| == 1;
    var id := RequestId(step.parts, step.world.legacyId).value;
    var (s, ok) := Register(d.server, step.client, id, "start", legacy);
    NoConfigReads();
    CompleteFresh(s, d.server, step.client, id, "start", legacy, Outcome(id, false, NO_CONFIG));
    ValidIdsAreSomething(id);
  }

  lemma NoConfigReads()
    ensures SafeDetail(NO_CONFIG) == NO_CONFIG
  {
  }

  /** Registering and completing at once leaves only the answer and its record. */
  lemma CompleteFresh(s: Server, before: Server, client: nat, id: string, command: string, legacy: bool, o: Outcome)
    requires id !in before.pending && o.id == id && client in before.clients
    requires s == before.(pending := before.pending[id := Pending(client, command, legacy, |before.registered|)],
                          registered := before.registered + [Registration(client, id, command, legacy)])
    ensures var t := Complete(s, o);
            && t.pending == before.pending
            && t.completed == before.completed + [Completion(|before.registered|, client, o, true)]
            && t.written == before.written +
                 [(client, if legacy then (if o.success then Ack else Error)
                           else CommandResult(id, command, o.success, SafeDetail(o.detail)))]
  {
    hide SafeDetail;
    assert s.pending - {id} == before.pending;
  }

  lemma {:induction false} StoppedOverRuns(d: Daemon, steps: seq<Step>)
    requires Stopped(d)
    requires forall i :: 0 <= i < |steps| ==> !Events(d, steps)[i].Configured?
    ensures Stopped(Run(d, steps))
    decreases |steps|
  {
    hide Next;
    hide EventOf;
    hide Stopped;
    StoppedHasWatchdog(d);
    if steps != [] {
      WatchdogStays(d, steps[0]);
      var events, m := Events(d, steps), Next(d, steps[0]);
      assert events[0] == EventOf(d, steps[0]) && events[1..] == Events(m, steps[1..]);
      assert forall i :: 0 <= i < |steps[1..]| ==> Events(m, steps[1..])[i] == events[i + 1];
      StoppedStays(d, steps[0]);
      StoppedOverRuns(m, steps[1..]);
    }
  }

  /** After an accepted stop, however the run goes on, as long as no config path is accepted: nothing is
      configured, nothing is set to run, and every start request is refused. */
  lemma StartAfterStopFails(d: Daemon, stop: Step, steps: seq<Step>)
    requires d.watchdog.Some? && EventOf(d, stop).Halted?
    requires Next(d, stop).watchdog.Some?
    requires forall i :: 0 <= i < |steps| ==> !Events(Next(d, stop), steps)[i].Configured?
    ensures var e := Run(Next(d, stop), steps);
            && Stopped(e)
            && forall step: Step :: step.Message? && step.command == "start" && AdmitsRequest(e.server, step) ==>
                Refuses(e, step)
  {
    hide Next;
    hide Run;
    hide Events;
    hide Stopped;
    hide Refuses;
    hide EventOf;
    StopStops(d, stop);
    StoppedOverRuns(Next(d, stop), steps);
    var e := Run(Next(d, stop), steps);
    forall step: Step | step.Message? && step.command == "start" && AdmitsRequest(e.server, step)
      ensures Refuses(e, step)
    {
      StartIsRefused(e, step);
    }
  }

  lemma StoppedHasWatchdog(d: Daemon)
    requires Stopped(d)
    ensures d.watchdog.Some?
  {
  }
}
