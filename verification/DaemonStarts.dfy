/** A start answered with success did start: at some moment of the run the watchdog was running the very
    command that was built when the request was accepted. */
module DaemonStarts {
  import opened Text
  import opened DaemonProtocol
  import opened DaemonLaws
  import opened DaemonRuns
  import opened DaemonConfig
  import opened DaemonReplies
  import A = DaemonAnswers

  /** What an accepted start sets the watchdog to run. */
  datatype Launch = Launch(command: string, elevate: bool)

  function LaunchOf(w: Watchdog): Launch {
    Launch(w.command, w.elevate)
  }

  function LaunchBuilt(d: Daemon, step: Step): Launch
    requires EventOf(d, step).Started?
  {
    Launch(CommandLine(d.corePath, EventOf(d, step).arg, d.configFile), step.world.elevate)
  }

  // ----- what one step calls back and completes

  /** `o` answers request `id` with success, and the watchdog is running what that request asked for. */
  ghost predicate IsRunning(o: Outcome, id: string, v: Watchdog, launch: Launch) {
    o.id == id && v.process == Running && LaunchOf(v) == launch
  }

  lemma ConfigServes(w: Watchdog, command: string, elevate: bool, id: string)
    ensures var (v, called) := SetProcessConfig(w, command, elevate, Some(id));
            && v.flight == w.flight && (v.slot.Some? ==> v.slot == Some(id)) && LaunchOf(v) == Launch(command, elevate)
            && forall i :: 0 <= i < |called| && called[i].success ==>
                IsRunning(called[i], id, v, Launch(command, elevate))
  {
  }

  lemma StopFails(w: Watchdog)
    ensures var (v, called) := SetProcessConfig(w, "", false, None);
            && v.flight == w.flight && v.slot.None?
            && forall i :: 0 <= i < |called| ==> !called[i].success
  {
  }

  /** The requests a handler completes itself succeed only if they are no starts. */
  ghost predicate CompletesNoStart(s: Server, t: Server) {
    && s.completed <= t.completed
    && forall i :: |s.completed| <= i < |t.completed| && t.completed[i].outcome.success ==>
         t.completed[i].ticket < |t.registered| && t.registered[t.completed[i].ticket].command != "start"
  }

  /** A callback that a message makes with success belongs to the start it is, whose launch is running. */
  ghost predicate CallsRunning(d: Daemon, step: Step, e: Daemon, o: Outcome) {
    && EventOf(d, step).Started? && e.watchdog.Some?
    && e.watchdog.value.process == Running && LaunchOf(e.watchdog.value) == LaunchBuilt(d, step)
    && o.id in e.server.pending && e.server.pending[o.id].ticket == |d.server.registered|
  }

  /** A slot that a message fills belongs to the start it is. */
  ghost predicate WaitsForLaunch(d: Daemon, step: Step, e: Daemon) {
    && EventOf(d, step).Started? && e.watchdog.Some? && e.watchdog.value.slot.Some?
    && LaunchOf(e.watchdog.value) == LaunchBuilt(d, step)
    && e.watchdog.value.slot.value in e.server.pending
    && e.server.pending[e.watchdog.value.slot.value].ticket == |d.server.registered|
  }

  ghost predicate Serves(d: Daemon, step: Step, e: Daemon) {
    && d.watchdog.Some? && e.watchdog.Some?
    && e.watchdog.value.flight == d.watchdog.value.flight
    && (e.watchdog == d.watchdog || e.watchdog.value.slot.None? || WaitsForLaunch(d, step, e))
    && d.server.queue <= e.server.queue
    && (forall k :: |d.server.queue| <= k < |e.server.queue| && e.server.queue[k].success ==>
          CallsRunning(d, step, e, e.server.queue[k]))
    && CompletesNoStart(d.server, e.server)
  }

  lemma CompleteOne(s: Server, o: Outcome)
    requires o.id in s.pending
    requires o.success ==> s.pending[o.id].ticket < |s.registered| &&
                             s.registered[s.pending[o.id].ticket].command != "start"
    ensures var t := Complete(s, o); t.queue == s.queue && CompletesNoStart(s, t)
  {
    hide SafeDetail;
  }

  lemma ServesByCalls(d: Daemon, step: Step, e: Daemon, called: seq<Outcome>)
    requires d.watchdog.Some? && e.watchdog.Some? && e.watchdog.value.flight == d.watchdog.value.flight
    requires e.watchdog.value.slot.None? || WaitsForLaunch(d, step, e)
    requires e.server.queue == d.server.queue + called
    requires forall i :: 0 <= i < |called| && called[i].success ==> CallsRunning(d, step, e, called[i])
    requires CompletesNoStart(d.server, e.server)
    ensures Serves(d, step, e)
  {
    hide CallsRunning;
    hide WaitsForLaunch;
    hide CompletesNoStart;
    forall k | |d.server.queue| <= k < |e.server.queue| && e.server.queue[k].success
      ensures CallsRunning(d, step, e, e.server.queue[k])
    {
      assert e.server.queue[k] == called[k - |d.server.queue|];
    }
  }

  lemma LaunchServes(d: Daemon, step: Step, id: string, s: Server)
    requires d.watchdog.Some? && EventOf(d, step).Started? && s.alive && s.queue == d.server.queue
    requires s.completed == d.server.completed && id in s.pending && s.pending[id].ticket == |d.server.registered|
    ensures var l := LaunchBuilt(d, step);
            var (v, called) := SetProcessConfig(d.watchdog.value, l.command, l.elevate, Some(id));
            Serves(d, step, d.(watchdog := Some(v), server := PostAll(s, called)))
  {
    hide EventOf;
    hide LaunchBuilt;
    hide SetProcessConfig;
    hide PostAll;
    hide Serves;
    var l := LaunchBuilt(d, step);
    var (v, called) := SetProcessConfig(d.watchdog.value, l.command, l.elevate, Some(id));
    ConfigServes(d.watchdog.value, l.command, l.elevate, id);
    PostAllQueues(s, called);
    ServesByCalls(d, step, d.(watchdog := Some(v), server := PostAll(s, called)), called);
  }

  lemma StartServes(d: Daemon, step: Step, id: string)
    requires d.watchdog.Some? && step.Message? && step.command == "start" && Connected(d.server, step.client)
    requires RequestId(step.parts, step.world.legacyId) == Some(id) && Admits(d.server, step.client, id)
    ensures Serves(d, step, Next(d, step))
  {
    hide IsValidRequestId;
    hide ValidateConfigFile;
    hide CommandLine;
    hide SetProcessConfig;
    hide PostAll;
    hide Complete;
    hide Signed;
    hide Serves;
    var (s, ok) := Register(d.server, step.client, id, "start", |step.parts| == 1);
    ValidIdsAreSomething(id);
    if EventOf(d, step).Started? {
      LaunchServes(d, step, id, s);
    } else {
      forall o: Outcome | o.id == id && !o.success
        ensures Serves(d, step, d.(server := Complete(s, o)))
      {
        RefusalServes(d, step, s, o);
      }
    }
  }

  lemma RefusalServes(d: Daemon, step: Step, s: Server, o: Outcome)
    requires d.watchdog.Some? && s.queue == d.server.queue && s.completed == d.server.completed && o.id in s.pending
    requires o.success ==> s.pending[o.id].ticket < |s.registered| &&
                             s.registered[s.pending[o.id].ticket].command != "start"
    ensures Serves(d, step, d.(server := Complete(s, o)))
  {
    hide Complete;
    hide EventOf;
    CompleteOne(s, o);
  }

  lemma StopServes(d: Daemon, step: Step, id: string)
    requires d.watchdog.Some? && step.Message? && step.command == "stop" && Connected(d.server, step.client)
    requires RequestId(step.parts, step.world.legacyId) == Some(id) && Admits(d.server, step.client, id)
    ensures Serves(d, step, Next(d, step))
  {
    hide IsValidRequestId;
    hide SetProcessConfig;
    hide PostAll;
    hide Complete;
    hide Serves;
    hide CallsRunning;
    hide WaitsForLaunch;
    hide CompletesNoStart;
    hide EventOf;
    var (s, ok) := Register(d.server, step.client, id, "stop", |step.parts| == 1);
    StopFails(d.watchdog.value);
    var (v, called) := SetProcessConfig(d.watchdog.value, "", false, None);
    PostAllQueues(s, called);
    StopCompletes(d.server, s, called, id);
    ServesByCalls(d, step, Next(d, step), called);
  }

  lemma StopCompletes(before: Server, s: Server, called: seq<Outcome>, id: string)
    requires s.completed == before.completed && id in s.pending && s.alive
    requires s.pending[id].ticket < |s.registered| && s.registered[s.pending[id].ticket].command != "start"
    ensures var t := Complete(PostAll(s, called), Outcome(id, true, ""));
            t.queue == s.queue + called && CompletesNoStart(before, t)
  {
    hide Complete;
    hide PostAll;
    PostAllQueues(s, called);
    CompleteOne(PostAll(s, called), Outcome(id, true, ""));
  }

  lemma ConfigFileServes(d: Daemon, step: Step)
    requires d.watchdog.Some? && step.Message? && step.command == "configFile" && Connected(d.server, step.client)
    ensures Serves(d, step, Next(d, step))
  {
    hide IsValidRequestId;
    hide ReadConfigRequest;
    hide ValidateConfigFile;
    hide Complete;
    var request := ReadConfigRequest(step.parts, step.world.legacyId);
    if request.Some? {
      var r := request.value;
      var (s, ok) := Register(d.server, step.client, r.id, "configFile", r.legacy);
      if ok {
        forall o: Outcome | o.id == r.id ensures Serves(d, step, d.(server := Complete(s, o))) {
          RefusalServes(d, step, s, o);
        }
      }
    }
  }

  lemma MessageServes(d: Daemon, step: Step)
    requires d.watchdog.Some? && step.Message?
    ensures Serves(d, step, Next(d, step))
  {
    hide StartOrStop;
    hide ProcessConfigFile;
    hide EventOf;
    if Connected(d.server, step.client) {
      var command, id := step.command, RequestId(step.parts, step.world.legacyId);
      if command == "configFile" {
        ConfigFileServes(d, step);
      } else if command == "start" || command == "stop" {
        StartOrStopServes(d, step);
      }
    }
  }

  lemma StartOrStopServes(d: Daemon, step: Step)
    requires d.watchdog.Some? && step.Message? && (step.command == "start" || step.command == "stop")
    requires Connected(d.server, step.client)
    ensures Serves(d, step, Next(d, step))
  {
    hide EventOf;
    hide IsValidRequestId;
    hide ApplyWatchdogCommand;
    hide ClearWatchdogCommand;
    var id := RequestId(step.parts, step.world.legacyId);
    if id.Some? && Admits(d.server, step.client, id.value) {
      if step.command == "start" {
        StartServes(d, step, id.value);
      } else {
        StopServes(d, step, id.value);
      }
    }
  }

  // ----- over runs

  /** Step `i` of the run is the accepted start registered as `t`, which asks for `l`. */
  ghost predicate LaunchedAt(d: Daemon, steps: seq<Step>, i: nat, t: nat, l: Launch)
    requires d.watchdog.Some?
  {
    && i < |steps|
    && var m := Run(d, steps[..i]);
    EventOf(m, steps[i]).Started? && |m.server.registered| == t && LaunchBuilt(m, steps[i]) == l
  }

  /** After `j` steps the watchdog is running `l`. */
  ghost predicate RanAt(d: Daemon, steps: seq<Step>, j: nat, l: Launch)
    requires d.watchdog.Some?
  {
    && j <= |steps|
    && var w := Run(d, steps[..j]).watchdog.value;
    w.process == Running && LaunchOf(w) == l
  }

  ghost predicate Launched(d: Daemon, steps: seq<Step>, t: nat, l: Launch)
    requires d.watchdog.Some?
  {
    exists i :: LaunchedAt(d, steps, i, t, l)
  }

  /** Request `t` was a start accepted in this run, and what it asked for was running later in it. */
  ghost predicate Served(d: Daemon, steps: seq<Step>, t: nat)
    requires d.watchdog.Some?
  {
    exists i: nat, j: nat, l :: i < j && LaunchedAt(d, steps, i, t, l) && RanAt(d, steps, j, l)
  }

  ghost predicate HonestSlot(d: Daemon, steps: seq<Step>, e: Daemon)
    requires d.watchdog.Some? && e.watchdog.Some?
  {
    var w, pending := e.watchdog.value, e.server.pending;
    w.slot.Some? && w.slot.value in pending ==> Launched(d, steps, pending[w.slot.value].ticket, LaunchOf(w))
  }

  ghost predicate HonestOutcome(d: Daemon, steps: seq<Step>, e: Daemon, o: Outcome)
    requires d.watchdog.Some?
  {
    o.success && o.id in e.server.pending ==> Served(d, steps, e.server.pending[o.id].ticket)
  }

  ghost predicate HonestCompletion(d: Daemon, steps: seq<Step>, e: Daemon, c: Completion)
    requires d.watchdog.Some?
  {
    c.outcome.success && c.ticket < |e.server.registered| && e.server.registered[c.ticket].command == "start" ==>
      Served(d, steps, c.ticket)
  }

  /** Every success, on its way or arrived, belongs to a start that was served. */
  ghost predicate Honest(d: Daemon, steps: seq<Step>, e: Daemon)
    requires d.watchdog.Some? && e.watchdog.Some?
  {
    && HonestSlot(d, steps, e)
    && (e.watchdog.value.flight.Some? ==> HonestOutcome(d, steps, e, e.watchdog.value.flight.value))
    && (forall k :: 0 <= k < |e.server.queue| ==> HonestOutcome(d, steps, e, e.server.queue[k]))
    && (forall k :: 0 <= k < |e.server.completed| ==> HonestCompletion(d, steps, e, e.server.completed[k]))
  }

  lemma LaunchedMore(d: Daemon, steps: seq<Step>, step: Step, i: nat, t: nat, l: Launch)
    requires d.watchdog.Some? && LaunchedAt(d, steps, i, t, l)
    ensures LaunchedAt(d, steps + [step], i, t, l)
  {
    hide Run;
    hide EventOf;
    assert (steps + [step])[..i] == steps[..i];
  }

  lemma StaysLaunched(d: Daemon, steps: seq<Step>, step: Step, t: nat, l: Launch)
    requires d.watchdog.Some? && Launched(d, steps, t, l)
    ensures Launched(d, steps + [step], t, l)
  {
    hide LaunchedAt;
    var i: nat :| LaunchedAt(d, steps, i, t, l);
    LaunchedMore(d, steps, step, i, t, l);
  }

  lemma RanMore(d: Daemon, steps: seq<Step>, step: Step, j: nat, l: Launch)
    requires d.watchdog.Some? && RanAt(d, steps, j, l)
    ensures RanAt(d, steps + [step], j, l)
  {
    hide Run;
    assert (steps + [step])[..j] == steps[..j];
  }

  lemma StaysServed(d: Daemon, steps: seq<Step>, step: Step, t: nat)
    requires d.watchdog.Some? && Served(d, steps, t)
    ensures Served(d, steps + [step], t)
  {
    hide LaunchedAt;
    hide RanAt;
    var i: nat, j: nat, l :| i < j && LaunchedAt(d, steps, i, t, l) && RanAt(d, steps, j, l);
    LaunchedMore(d, steps, step, i, t, l);
    RanMore(d, steps, step, j, l);
  }

  lemma RunSnoc(d: Daemon, steps: seq<Step>, step: Step)
    requires d.watchdog.Some?
    ensures Run(d, steps + [step]) == Next(Run(d, steps), step)
    ensures (steps + [step])[..|steps|] == steps && (steps + [step])[..|steps| + 1] == steps + [step]
  {
    hide Next;
    RunConcat(d, steps, [step]);
    RunOne(Run(d, steps), step, []);
    assert [step] + [] == [step];
    WatchdogStays(Run(d, steps), step);
    RunOne(Next(Run(d, steps), step), step, []);
  }

  /** The start a step is was launched by it. */
  lemma LaunchesNow(d: Daemon, steps: seq<Step>, step: Step)
    requires d.watchdog.Some? && EventOf(Run(d, steps), step).Started?
    ensures var m := Run(d, steps);
            LaunchedAt(d, steps + [step], |steps|, |m.server.registered|, LaunchBuilt(m, step))
  {
    hide Run;
    hide EventOf;
    hide LaunchBuilt;
    RunSnoc(d, steps, step);
  }

  ghost predicate EndsRunning(e: Daemon, l: Launch) {
    e.watchdog.Some? && e.watchdog.value.process == Running && LaunchOf(e.watchdog.value) == l
  }

  lemma RunsNow(d: Daemon, all: seq<Step>, l: Launch)
    requires d.watchdog.Some? && EndsRunning(Run(d, all), l)
    ensures RanAt(d, all, |all|, l)
  {
    hide Run;
    assert all[..|all|] == all;
  }

  /** What is on its way belongs to a pending request. */
  lemma OnItsWayIsPending(d: Daemon)
    requires Inv(d) && d.server.alive
    ensures d.watchdog.value.slot.Some? ==> d.watchdog.value.slot.value in d.server.pending
    ensures d.watchdog.value.flight.Some? ==> d.watchdog.value.flight.value.id in d.server.pending
    ensures forall k :: 0 <= k < |d.server.queue| ==> d.server.queue[k].id in d.server.pending
  {
    hide Inv;
    hide Ids;
    InvHasWatchdog(d);
    var w := d.watchdog.value;
    if w.slot.Some? {
      OnePlaceEach(d, w.slot.value);
    }
    if w.flight.Some? {
      OnePlaceEach(d, w.flight.value.id);
    }
    forall k | 0 <= k < |d.server.queue| ensures d.server.queue[k].id in d.server.pending {
      OnePlaceEach(d, d.server.queue[k].id);
      A.IdsCount(d.server.queue, d.server.queue[k].id, k);
    }
  }

  /** An outcome that was honest, of a request that is still pending as it was, stays honest. */
  lemma OutcomeStays(d: Daemon, steps: seq<Step>, step: Step, m: Daemon, e: Daemon, o: Outcome)
    requires d.watchdog.Some? && HonestOutcome(d, steps, m, o) && o.id in m.server.pending
    requires o.id in e.server.pending ==> e.server.pending[o.id] == m.server.pending[o.id]
    ensures HonestOutcome(d, steps + [step], e, o)
  {
    hide Served;
    if o.success {
      StaysServed(d, steps, step, m.server.pending[o.id].ticket);
    }
  }

  lemma CompletionStays(d: Daemon, steps: seq<Step>, step: Step, m: Daemon, e: Daemon, c: Completion)
    requires d.watchdog.Some? && HonestCompletion(d, steps, m, c)
    requires m.server.registered <= e.server.registered && c.ticket < |m.server.registered|
    ensures HonestCompletion(d, steps + [step], e, c)
  {
    hide Served;
    if c.outcome.success && m.server.registered[c.ticket].command == "start" {
      StaysServed(d, steps, step, c.ticket);
    }
  }

  lemma CompletionsStay(d: Daemon, steps: seq<Step>, step: Step, m: Daemon, e: Daemon)
    requires d.watchdog.Some? && m.watchdog.Some? && Honest(d, steps, m) && Inv(m)
    requires m.server.registered <= e.server.registered && m.server.completed <= e.server.completed
    ensures forall k :: 0 <= k < |m.server.completed| ==> HonestCompletion(d, steps + [step], e, e.server.completed[k])
  {
    hide HonestCompletion;
    hide HonestSlot;
    hide HonestOutcome;
    hide Placed;
    hide WatchdogOk;
    hide IsBuiltCommand;
    hide HasPending;
    hide HasCompleted;
    forall k | 0 <= k < |m.server.completed| ensures HonestCompletion(d, steps + [step], e, e.server.completed[k]) {
      assert e.server.completed[k] == m.server.completed[k];
      CompletionStays(d, steps, step, m, e, m.server.completed[k]);
    }
  }

  lemma SlotStays(d: Daemon, steps: seq<Step>, step: Step, m: Daemon, e: Daemon)
    requires d.watchdog.Some? && m.watchdog.Some? && e.watchdog.Some? && HonestSlot(d, steps, m)
    requires var w, v := m.watchdog.value, e.watchdog.value;
             v.slot == w.slot && LaunchOf(v) == LaunchOf(w) &&
             (w.slot.Some? && w.slot.value in e.server.pending ==>
                w.slot.value in m.server.pending && e.server.pending[w.slot.value] == m.server.pending[w.slot.value])
    ensures HonestSlot(d, steps + [step], e)
  {
    hide Launched;
    var w := m.watchdog.value;
    if w.slot.Some? && w.slot.value in e.server.pending {
      StaysLaunched(d, steps, step, m.server.pending[w.slot.value].ticket, LaunchOf(w));
    }
  }

  lemma MessageIsHonest(d: Daemon, steps: seq<Step>, step: Step)
    requires d.watchdog.Some? && step.Message? && Inv(Run(d, steps)) && Honest(d, steps, Run(d, steps))
    requires Run(d, steps).server.alive
    ensures Next(Run(d, steps), step).watchdog.Some? && Honest(d, steps + [step], Next(Run(d, steps), step))
  {
    hide Inv;
    hide Run;
    hide Next;
    hide EventOf;
    hide LaunchBuilt;
    hide LaunchedAt;
    hide RanAt;
    hide HonestOutcome;
    hide HonestCompletion;
    hide HonestSlot;
    var m, more := Run(d, steps), steps + [step];
    var e := Next(m, step);
    MessageServes(m, step);
    MessageKeepsAll(m, step);
    RunSnoc(d, steps, step);
    OnItsWayIsPending(m);
    CompletionsStay(d, steps, step, m, e);
    if e.watchdog == m.watchdog {
      SlotStays(d, steps, step, m, e);
    } else {
      NewSlotIsHonest(d, steps, step, e);
    }
    if e.watchdog.value.flight.Some? {
      OutcomeStays(d, steps, step, m, e, m.watchdog.value.flight.value);
    }
    forall k | 0 <= k < |e.server.queue| ensures HonestOutcome(d, more, e, e.server.queue[k]) {
      if k < |m.server.queue| {
        assert e.server.queue[k] == m.server.queue[k];
        OutcomeStays(d, steps, step, m, e, m.server.queue[k]);
      } else {
        NewCallIsHonest(d, steps, step, e, e.server.queue[k]);
      }
    }
    forall k | |m.server.completed| <= k < |e.server.completed|
      ensures HonestCompletion(d, more, e, e.server.completed[k])
    {
      NoStartIsHonest(d, more, m, e, k);
    }
  }

  lemma NoStartIsHonest(d: Daemon, steps: seq<Step>, m: Daemon, e: Daemon, k: nat)
    requires d.watchdog.Some? && CompletesNoStart(m.server, e.server)
    requires |m.server.completed| <= k < |e.server.completed|
    ensures HonestCompletion(d, steps, e, e.server.completed[k])
  {
    hide Served;
  }

  lemma MessageKeepsAll(d: Daemon, step: Step)
    requires d.watchdog.Some? && step.Message?
    ensures A.KeepsPending(d, Next(d, step))
  {
    hide A.KeepsPending;
    hide ProcessCommand;
    A.MessageKeeps(d, step.client, step.command, step.parts, step.world);
    A.NothingKeeps(d);
  }

  lemma NewSlotIsHonest(d: Daemon, steps: seq<Step>, step: Step, e: Daemon)
    requires d.watchdog.Some? && e.watchdog.Some?
    requires e.watchdog.value.slot.None? || WaitsForLaunch(Run(d, steps), step, e)
    ensures HonestSlot(d, steps + [step], e)
  {
    hide Run;
    hide EventOf;
    hide LaunchBuilt;
    hide LaunchedAt;
    if e.watchdog.value.slot.Some? {
      LaunchesNow(d, steps, step);
    }
  }

  lemma NewCallIsHonest(d: Daemon, steps: seq<Step>, step: Step, e: Daemon, o: Outcome)
    requires d.watchdog.Some? && e == Run(d, steps + [step])
    requires o.success ==> CallsRunning(Run(d, steps), step, e, o)
    ensures HonestOutcome(d, steps + [step], e, o)
  {
    hide Run;
    hide EventOf;
    hide LaunchBuilt;
    hide LaunchedAt;
    hide RanAt;
    if o.success {
      var m := Run(d, steps);
      LaunchesNow(d, steps, step);
      RunsNow(d, steps + [step], LaunchBuilt(m, step));
    }
  }

  /** A turn keeps a waiting request's launch, and reports success only with that launch running. */
  lemma TurnLaunches(w: Watchdog, t: Turn, foreground: bool)
    requires w.flight.None?
    ensures var v := MainLoopTurn(w, t, foreground);
            && LaunchOf(v) == LaunchOf(w) && (v.slot.Some? ==> v.slot == w.slot)
            && (v.flight.Some? ==> w.slot == Some(v.flight.value.id))
            && (v.flight.Some? && v.flight.value.success ==> v.process == Running)
  {
    hide RetryDelay;
  }

  lemma TurnIsHonest(d: Daemon, steps: seq<Step>, step: Step)
    requires d.watchdog.Some? && step.WatchdogTurn? && Inv(Run(d, steps)) && Honest(d, steps, Run(d, steps))
    requires Run(d, steps).server.alive
    ensures Next(Run(d, steps), step).watchdog.Some? && Honest(d, steps + [step], Next(Run(d, steps), step))
  {
    hide Inv;
    hide Run;
    hide MainLoopTurn;
    hide LaunchedAt;
    hide RanAt;
    hide Launched;
    hide Served;
    hide HonestOutcome;
    hide HonestCompletion;
    var m, more := Run(d, steps), steps + [step];
    var e, w := Next(m, step), m.watchdog.value;
    RunSnoc(d, steps, step);
    OnItsWayIsPending(m);
    CompletionsStay(d, steps, step, m, e);
    forall k | 0 <= k < |e.server.queue| ensures HonestOutcome(d, more, e, e.server.queue[k]) {
      OutcomeStays(d, steps, step, m, e, m.server.queue[k]);
    }
    if w.flight.Some? {
      OutcomeStays(d, steps, step, m, e, w.flight.value);
      SlotStays(d, steps, step, m, e);
    } else {
      TurnLaunches(w, step.turn, m.foreground);
      if e.watchdog.value.slot.Some? {
        SlotStays(d, steps, step, m, e);
      }
      if e.watchdog.value.flight.Some? {
        StartedIsHonest(d, steps, step, m, e);
      }
    }
  }

  lemma StartedIsHonest(d: Daemon, steps: seq<Step>, step: Step, m: Daemon, e: Daemon)
    requires d.watchdog.Some? && m.watchdog.Some? && HonestSlot(d, steps, m) && e == Run(d, steps + [step])
    requires m.watchdog.value.slot.Some? && e.watchdog.value.flight.Some? && e.server == m.server
    requires m.watchdog.value.slot.value == e.watchdog.value.flight.value.id
    requires e.watchdog.value.flight.value.success ==> e.watchdog.value.process == Running
    requires LaunchOf(e.watchdog.value) == LaunchOf(m.watchdog.value)
    ensures HonestOutcome(d, steps + [step], e, e.watchdog.value.flight.value)
  {
    hide Run;
    hide LaunchedAt;
    hide RanAt;
    var o, l := e.watchdog.value.flight.value, LaunchOf(m.watchdog.value);
    if o.success && o.id in e.server.pending {
      var t := e.server.pending[o.id].ticket;
      var i: nat :| LaunchedAt(d, steps, i, t, l);
      LaunchedInRange(d, steps, i, t, l);
      LaunchedMore(d, steps, step, i, t, l);
      RunsNow(d, steps + [step], l);
      assert i < |steps + [step]|;
    }
  }

  lemma LaunchedInRange(d: Daemon, steps: seq<Step>, i: nat, t: nat, l: Launch)
    requires d.watchdog.Some? && LaunchedAt(d, steps, i, t, l)
    ensures i < |steps|
  {
  }

  lemma DeliveryIsHonest(d: Daemon, steps: seq<Step>, step: Step)
    requires d.watchdog.Some? && step.DeliverQueued? && Inv(Run(d, steps)) && Honest(d, steps, Run(d, steps))
    requires Run(d, steps).server.alive
    ensures Next(Run(d, steps), step).watchdog.Some? && Honest(d, steps + [step], Next(Run(d, steps), step))
  {
    hide Inv;
    hide Run;
    hide LaunchedAt;
    hide RanAt;
    hide Launched;
    hide Served;
    hide HonestOutcome;
    hide HonestCompletion;
    hide SafeDetail;
    hide ResponseFor;
    var m, more := Run(d, steps), steps + [step];
    var e, w := Next(m, step), m.watchdog.value;
    OnItsWayIsPending(m);
    CompletionsStay(d, steps, step, m, e);
    SlotStays(d, steps, step, m, e);
    if w.flight.Some? {
      OutcomeStays(d, steps, step, m, e, w.flight.value);
    }
    forall k | 0 <= k < |e.server.queue| ensures HonestOutcome(d, more, e, e.server.queue[k]) {
      var before := if m.server.queue == [] then k else k + 1;
      assert e.server.queue[k] == m.server.queue[before];
      OutcomeStays(d, steps, step, m, e, m.server.queue[before]);
    }
    forall k | |m.server.completed| <= k < |e.server.completed|
      ensures HonestCompletion(d, more, e, e.server.completed[k])
    {
      var o := m.server.queue[0];
      var p := m.server.pending[o.id];
      assert e.server.completed[k] == Completion(p.ticket, p.client, o, p.client in m.server.clients);
      ArrivedIsHonest(d, steps, step, m, e, o, e.server.completed[k]);
    }
  }

  lemma ArrivedIsHonest(d: Daemon, steps: seq<Step>, step: Step, m: Daemon, e: Daemon, o: Outcome, c: Completion)
    requires d.watchdog.Some? && HonestOutcome(d, steps, m, o) && o.id in m.server.pending
    requires c.ticket == m.server.pending[o.id].ticket && c.outcome == o
    ensures HonestCompletion(d, steps + [step], e, c)
  {
    hide Served;
    if o.success {
      StaysServed(d, steps, step, c.ticket);
    }
  }

  lemma CallIsHonest(d: Daemon, steps: seq<Step>, step: Step)
    requires d.watchdog.Some? && step.WatchdogCalls? && Inv(Run(d, steps)) && Honest(d, steps, Run(d, steps))
    requires Run(d, steps).server.alive
    ensures Next(Run(d, steps), step).watchdog.Some? && Honest(d, steps + [step], Next(Run(d, steps), step))
  {
    hide Inv;
    hide Run;
    hide LaunchedAt;
    hide RanAt;
    hide Launched;
    hide Served;
    hide HonestOutcome;
    hide HonestCompletion;
    var m, more := Run(d, steps), steps + [step];
    var e, w := Next(m, step), m.watchdog.value;
    OnItsWayIsPending(m);
    CompletionsStay(d, steps, step, m, e);
    SlotStays(d, steps, step, m, e);
    forall k | 0 <= k < |e.server.queue| ensures HonestOutcome(d, more, e, e.server.queue[k]) {
      OutcomeStays(d, steps, step, m, e, if k < |m.server.queue| then m.server.queue[k] else w.flight.value);
    }
  }

  /** Connections change nothing that matters here; without a server nothing is pending. */
  lemma OtherIsHonest(d: Daemon, steps: seq<Step>, step: Step)
    requires d.watchdog.Some? && Inv(Run(d, steps)) && Honest(d, steps, Run(d, steps))
    requires step.Connect? || step.Disconnect?
    requires Run(d, steps).server.alive
    ensures Next(Run(d, steps), step).watchdog.Some? && Honest(d, steps + [step], Next(Run(d, steps), step))
  {
    hide Inv;
    hide Run;
    hide Launched;
    hide Served;
    hide HonestOutcome;
    hide HonestCompletion;
    var m, more := Run(d, steps), steps + [step];
    var e, w := Next(m, step), m.watchdog.value;
    OnItsWayIsPending(m);
    CompletionsStay(d, steps, step, m, e);
    SlotStays(d, steps, step, m, e);
    if w.flight.Some? {
      OutcomeStays(d, steps, step, m, e, w.flight.value);
    }
    forall k | 0 <= k < |e.server.queue| ensures HonestOutcome(d, more, e, e.server.queue[k]) {
      OutcomeStays(d, steps, step, m, e, m.server.queue[k]);
    }
  }

  lemma DeadIsHonest(d: Daemon, steps: seq<Step>, step: Step)
    requires d.watchdog.Some? && Inv(Run(d, steps)) && Honest(d, steps, Run(d, steps))
    requires step.DestroyServer? || !Run(d, steps).server.alive
    ensures Next(Run(d, steps), step).watchdog.Some? && Honest(d, steps + [step], Next(Run(d, steps), step))
  {
    hide Inv;
    hide Run;
    hide Launched;
    hide Served;
    hide HonestCompletion;
    hide MainLoopTurn;
    hide ProcessCommand;
    var m := Run(d, steps);
    var e := Next(m, step);
    WatchdogStays(m, step);
    StepKeepsInv(m, step);
    NothingIsLeft(m);
    NothingIsLeft(e);
    if !m.server.alive {
      DeadServersAnswerNothing(m, step);
    }
    CompletionsStay(d, steps, step, m, e);
  }

  lemma NothingIsLeft(d: Daemon)
    requires Inv(d)
    ensures !d.server.alive ==> d.server.pending == map[] && d.server.queue == []
  {
    hide Accounts;
    hide IsBuiltCommand;
  }

  lemma StepIsHonest(d: Daemon, steps: seq<Step>, step: Step)
    requires d.watchdog.Some? && Inv(Run(d, steps)) && Honest(d, steps, Run(d, steps))
    ensures Honest(d, steps + [step], Run(d, steps + [step]))
  {
    hide Inv;
    hide Run;
    hide Next;
    hide Honest;
    RunSnoc(d, steps, step);
    if !Run(d, steps).server.alive {
      DeadIsHonest(d, steps, step);
    } else {
      match step
      case Message(_, _, _, _) => MessageIsHonest(d, steps, step);
      case WatchdogTurn(_) => TurnIsHonest(d, steps, step);
      case WatchdogCalls => CallIsHonest(d, steps, step);
      case DeliverQueued => DeliveryIsHonest(d, steps, step);
      case DestroyServer => DeadIsHonest(d, steps, step);
      case _ => OtherIsHonest(d, steps, step);
    }
  }

  lemma {:induction false} RunIsHonest(d: Daemon, steps: seq<Step>)
    requires Inv(d) && d.server == EMPTY_SERVER
    ensures d.watchdog.Some? && Honest(d, steps, Run(d, steps))
    decreases |steps|
  {
    hide Inv;
    hide Run;
    InvHasWatchdog(d);
    if steps == [] {
      RunOne(d, DeliverQueued, []);
    } else {
      hide Honest;
      var front, last := steps[..|steps| - 1], steps[|steps| - 1];
      assert steps == front + [last];
      RunIsHonest(d, front);
      RunKeepsInv(d, front);
      StepIsHonest(d, front, last);
    }
  }

  /** Over every run from start-up: each start answered with success was accepted at some step, and at
      some later moment the watchdog was running the very command built in that step. */
  lemma SuccessfulStartsRan(
    persisted: string, foreground: bool, corePath: string, world: World, steps: seq<Step>, k: nat)
    requires k < |Reached(persisted, foreground, corePath, world, steps).server.completed|
    ensures var start, s := StartUp(Initial(persisted, foreground, corePath), world),
                            Reached(persisted, foreground, corePath, world, steps).server;
            var c := s.completed[k];
            && start.watchdog.Some? && c.ticket < |s.registered|
            && (c.outcome.success && s.registered[c.ticket].command == "start" ==> Served(start, steps, c.ticket))
  {
    hide Run;
    hide StartUp;
    hide Served;
    hide HonestSlot;
    hide HonestOutcome;
    hide HasPending;
    hide HasCompleted;
    hide Placed;
    hide WatchdogOk;
    hide IsBuiltCommand;
    var start := StartUp(Initial(persisted, foreground, corePath), world);
    StartUpIsQuiet(persisted, foreground, corePath, world);
    RunIsHonest(start, steps);
    RunKeepsInv(start, steps);
    assert HonestCompletion(start, steps, Run(start, steps), Run(start, steps).server.completed[k]);
  }

  /** So what clients read is true: over every run from start-up, each successful result of a start that was
      written went to the client that registered it, and what that start asked for had been running. */
  lemma WrittenSuccessesRan(
    persisted: string, foreground: bool, corePath: string, world: World, steps: seq<Step>, w: (nat, Response))
    returns (t: nat)
    requires w in Reached(persisted, foreground, corePath, world, steps).server.written
    requires w.1.CommandResult? && w.1.command == "start" && w.1.success
    ensures var start, s := StartUp(Initial(persisted, foreground, corePath), world),
                            Reached(persisted, foreground, corePath, world, steps).server;
            && t < |s.registered| && s.registered[t] == Registration(w.0, w.1.id, "start", false)
            && start.watchdog.Some? && Served(start, steps, t)
  {
    hide Run;
    hide StartUp;
    hide Served;
    hide Replies;
    hide SafeDetail;
    var s := Reached(persisted, foreground, corePath, world, steps).server;
    ReachedReplies(persisted, foreground, corePath, world, steps);
    var i := ResultIsOwed(s, w);
    t := s.completed[i].ticket;
    SuccessfulStartsRan(persisted, foreground, corePath, world, steps, i);
  }
}
