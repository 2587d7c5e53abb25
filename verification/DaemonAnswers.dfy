/** Every request is answered, however messages, the watchdog's turns and callbacks, and the server's
    queued invocations interleave, as long as the server lives. */
module DaemonAnswers {
  import opened Text
  import opened DaemonProtocol
  import opened DaemonLaws
  import opened DaemonRuns
  import opened DaemonReplies

  // ----- what one message does

  /** From `s` to `t` the server only went on: nothing queued, completed or registered was lost, and no
      pending request other than `id` was touched. */
  ghost predicate GoesOn(s: Server, t: Server, id: string) {
    && t.alive == s.alive && t.clients == s.clients && t.connections == s.connections
    && s.queue <= t.queue && s.completed <= t.completed && s.registered <= t.registered
    && forall x :: x in s.pending && x != id ==> x in t.pending && t.pending[x] == s.pending[x]
  }

  lemma GoesOnTwice(s: Server, t: Server, u: Server, id: string)
    requires GoesOn(s, t, id) && GoesOn(t, u, id)
    ensures GoesOn(s, u, id)
  {
  }

  lemma CompleteGoesOn(s: Server, o: Outcome)
    ensures GoesOn(s, Complete(s, o), o.id)
  {
    hide SafeDetail;
  }

  lemma PostsGoOn(s: Server, os: seq<Outcome>, id: string)
    ensures GoesOn(s, PostAll(s, os), id)
  {
    hide PostAll;
    PostAllQueues(s, os);
  }

  lemma RegisterGoesOn(s: Server, client: nat, id: string, command: string, legacy: bool)
    ensures var (t, ok) := Register(s, client, id, command, legacy);
            GoesOn(s, t, id) && (ok ==> id !in s.pending && id in t.pending) && (!ok ==> t.pending == s.pending)
  {
    hide IsValidRequestId;
  }

  /** The watchdog keeps its callback in flight, and its slot is left alone, emptied, or given to `id`. */
  ghost predicate HandsOver(w: Watchdog, v: Watchdog, id: string) {
    v == w || (v.flight == w.flight && (v.slot.None? || v.slot == Some(id)))
  }

  lemma ApplyGoesOn(d: Daemon, id: string, world: World)
    requires d.watchdog.Some?
    ensures var e := ApplyWatchdogCommand(d, id, world);
            && e.watchdog.Some? && GoesOn(d.server, e.server, id)
            && HandsOver(d.watchdog.value, e.watchdog.value, id)
  {
    hide GoesOn;
    hide Complete;
    hide ValidateConfigFile;
    hide ModeArg;
    hide CommandLine;
    hide PostAll;
    hide Signed;
    forall o: Outcome | o.id == id ensures GoesOn(d.server, Complete(d.server, o), id) {
      CompleteGoesOn(d.server, o);
    }
    forall os ensures GoesOn(d.server, PostAll(d.server, os), id) {
      PostsGoOn(d.server, os, id);
    }
    NothingGoesOn(d.server, id);
  }

  lemma NothingGoesOn(s: Server, id: string)
    ensures GoesOn(s, s, id)
  {
  }

  lemma ClearGoesOn(d: Daemon, id: string)
    requires d.watchdog.Some?
    ensures var e := ClearWatchdogCommand(d, id);
            && e.watchdog.Some? && GoesOn(d.server, e.server, id)
            && HandsOver(d.watchdog.value, e.watchdog.value, id)
  {
    hide GoesOn;
    hide Complete;
    hide PostAll;
    var (w, called) := SetProcessConfig(d.watchdog.value, "", false, None);
    var s := PostAll(d.server, called);
    PostsGoOn(d.server, called, id);
    CompleteGoesOn(s, Outcome(id, true, ""));
    GoesOnTwice(d.server, s, Complete(s, Outcome(id, true, "")), id);
  }

  /** A message leaves every request that was pending where it is, or has the watchdog call it back. */
  ghost predicate KeepsPending(d: Daemon, e: Daemon) {
    && d.watchdog.Some? && e.watchdog.Some?
    && e.server.alive == d.server.alive
    && e.server.clients == d.server.clients && e.server.connections == d.server.connections
    && d.server.queue <= e.server.queue && d.server.completed <= e.server.completed
    && d.server.registered <= e.server.registered
    && (forall x :: x in d.server.pending ==> x in e.server.pending && e.server.pending[x] == d.server.pending[x])
    && (e.watchdog == d.watchdog ||
        (e.watchdog.value.flight == d.watchdog.value.flight &&
         (e.watchdog.value.slot.Some? ==> e.watchdog.value.slot.value !in d.server.pending)))
  }

  lemma KeepsBy(d: Daemon, e: Daemon, id: string)
    requires d.watchdog.Some? && e.watchdog.Some? && id !in d.server.pending
    requires GoesOn(d.server, e.server, id) && HandsOver(d.watchdog.value, e.watchdog.value, id)
    ensures KeepsPending(d, e)
  {
  }

  lemma WriteKeeps(d: Daemon, client: nat, r: Response)
    requires d.watchdog.Some?
    ensures KeepsPending(d, d.(server := Write(d.server, client, r)))
  {
  }

  lemma StartOrStopKeeps(d: Daemon, client: nat, command: string, parts: seq<string>, world: World)
    requires d.watchdog.Some?
    ensures KeepsPending(d, StartOrStop(d, client, command, parts, world))
  {
    hide GoesOn;
    hide HandsOver;
    hide KeepsPending;
    hide Register;
    hide ApplyWatchdogCommand;
    hide ClearWatchdogCommand;
    WriteKeeps(d, client, Error);
    if |parts| == 1 || |parts| == 2 {
      var legacy := |parts| == 1;
      var id := if legacy then world.legacyId else parts[1];
      var (s, ok) := Register(d.server, client, id, command, legacy);
      RegisterGoesOn(d.server, client, id, command, legacy);
      if !ok {
        RefusalKeeps(d, client, id, command, legacy);
      } else if command == "start" {
        var e := ApplyWatchdogCommand(d.(server := s), id, world);
        ApplyGoesOn(d.(server := s), id, world);
        GoesOnTwice(d.server, s, e.server, id);
        KeepsBy(d, e, id);
      } else {
        var e := ClearWatchdogCommand(d.(server := s), id);
        ClearGoesOn(d.(server := s), id);
        GoesOnTwice(d.server, s, e.server, id);
        KeepsBy(d, e, id);
      }
    }
  }

  lemma RefusalKeeps(d: Daemon, client: nat, id: string, command: string, legacy: bool)
    requires d.watchdog.Some? && !Register(d.server, client, id, command, legacy).1
    ensures KeepsPending(d, d.(server := Register(d.server, client, id, command, legacy).0))
  {
    WriteKeeps(d, client, Error);
  }

  lemma ConfigFileKeeps(d: Daemon, client: nat, parts: seq<string>, world: World)
    requires d.watchdog.Some?
    ensures KeepsPending(d, ProcessConfigFile(d, client, parts, world))
  {
    hide GoesOn;
    hide KeepsPending;
    hide Register;
    hide Complete;
    hide ReadConfigRequest;
    hide ValidateConfigFile;
    WriteKeeps(d, client, Error);
    var request := ReadConfigRequest(parts, world.legacyId);
    if request.Some? {
      var r := request.value;
      var (s, ok) := Register(d.server, client, r.id, "configFile", r.legacy);
      RegisterGoesOn(d.server, client, r.id, "configFile", r.legacy);
      if ok {
        var e := ProcessConfigFile(d, client, parts, world);
        forall o: Outcome | o.id == r.id ensures GoesOn(d.server, Complete(s, o), r.id) {
          CompleteGoesOn(s, o);
          GoesOnTwice(d.server, s, Complete(s, o), r.id);
        }
        KeepsBy(d, e, r.id);
      } else {
        RefusalKeeps(d, client, r.id, "configFile", r.legacy);
      }
    }
  }

  lemma MessageKeeps(d: Daemon, client: nat, command: string, parts: seq<string>, world: World)
    requires d.watchdog.Some?
    ensures KeepsPending(d, ProcessCommand(d, client, command, parts, world))
  {
    hide StartOrStop;
    hide ProcessConfigFile;
    StartOrStopKeeps(d, client, command, parts, world);
    ConfigFileKeeps(d, client, parts, world);
  }

  // ----- where a pending request is

  ghost predicate InSlot(d: Daemon, x: string) {
    d.watchdog.Some? && d.watchdog.value.slot == Some(x)
  }

  ghost predicate InFlight(d: Daemon, x: string) {
    d.watchdog.Some? && d.watchdog.value.flight.Some? && d.watchdog.value.flight.value.id == x
  }

  ghost predicate Queued(d: Daemon, x: string, k: nat) {
    k < |d.server.queue| && d.server.queue[k].id == x
  }

  lemma IdsCount(os: seq<Outcome>, x: string, k: nat)
    requires k < |os| && os[k].id == x
    ensures Ids(os)[x] >= 1 && Ids(os)[x] == 1 + Ids(os[..k])[x] + Ids(os[k + 1..])[x]
  {
    assert os == os[..k] + ([os[k]] + os[k + 1..]);
    IdsConcat(os[..k], [os[k]] + os[k + 1..]);
    IdsConcat([os[k]], os[k + 1..]);
    IdsOfOne(os[k].id, os[k].success, os[k].detail);
  }

  lemma {:induction false} IdsFind(os: seq<Outcome>, x: string)
    ensures Ids(os)[x] >= 1 ==> exists k :: 0 <= k < |os| && os[k].id == x
    decreases |os|
  {
    if os != [] {
      IdsFind(os[1..], x);
      if os[0].id != x && Ids(os)[x] >= 1 {
        var k :| 0 <= k < |os[1..]| && os[1..][k].id == x;
        assert os[k + 1].id == x;
      }
    }
  }

  /** A pending request is in one place, and in one position of the queue. */
  lemma OnePlace(d: Daemon, x: string)
    requires Inv(d) && d.server.alive && x in d.server.pending
    ensures InSlot(d, x) ==> !InFlight(d, x)
    ensures InSlot(d, x) || InFlight(d, x) <==> !(exists k :: Queued(d, x, k))
    ensures forall j: nat, k: nat :: Queued(d, x, j) && Queued(d, x, k) ==> j == k
  {
    hide Inv;
    hide Ids;
    InvHasWatchdog(d);
    OnePlaceEach(d, x);
    var w, os := d.watchdog.value, d.server.queue;
    assert SlotIds(w)[x] + FlightIds(w)[x] + Ids(os)[x] == 1;
    IdsFind(os, x);
    if Ids(os)[x] >= 1 {
      var k: nat :| k < |os| && os[k].id == x;
      assert Queued(d, x, k);
    }
    forall j: nat, k: nat | Queued(d, x, j) && Queued(d, x, k) ensures j == k {
      IdsCount(os, x, j);
      IdsCount(os, x, k);
      if j < k {
        IdsCount(os[..k], x, j);
      } else if k < j {
        IdsCount(os[..j], x, k);
      }
    }
    forall k | Queued(d, x, k) ensures Ids(os)[x] >= 1 {
      IdsCount(os, x, k);
    }
  }

  /** Turns of the watchdog from the request's process state to its start. */
  function Rank(w: Watchdog): nat {
    if w.process == StartPending then 1 else 2
  }

  /** A turn that brings a waiting start nearer: no callback is in flight, and a scheduled start is due. */
  predicate IsUseful(d: Daemon, step: Step)
    requires d.watchdog.Some?
  {
    && step.WatchdogTurn? && d.watchdog.value.flight.None?
    && (step.turn.due || d.watchdog.value.process != StartScheduled)
  }

  /** Request `x` is still pending in `e`, and nearer to its answer than in `d`, if only by a step. */
  ghost predicate Nearer(d: Daemon, step: Step, e: Daemon, x: string)
    requires d.watchdog.Some? && e.watchdog.Some? && x in d.server.pending
  {
    && x in e.server.pending && e.server.pending[x] == d.server.pending[x]
    && (InSlot(e, x) ==> InSlot(d, x))
    && (InSlot(e, x) ==> Rank(e.watchdog.value) + (if IsUseful(d, step) then 1 else 0) <= Rank(d.watchdog.value))
    && (InFlight(e, x) ==> InSlot(d, x) || (InFlight(d, x) && !step.WatchdogCalls?))
    && (!step.DeliverQueued? ==> forall k: nat :: Queued(d, x, k) ==> Queued(e, x, k))
    && (step.DeliverQueued? ==> forall k: nat :: Queued(d, x, k) ==> k > 0 && Queued(e, x, k - 1))
  }

  lemma MessageNearer(d: Daemon, step: Step, e: Daemon, x: string)
    requires d.watchdog.Some? && e.watchdog.Some? && x in d.server.pending && KeepsPending(d, e)
    requires step.Message?
    ensures Nearer(d, step, e, x)
  {
  }

  lemma ServerStepNearer(d: Daemon, step: Step, x: string)
    requires d.watchdog.Some? && x in d.server.pending && (step.Connect? || step.Disconnect?)
    ensures var e := Next(d, step); e.watchdog.Some? && Nearer(d, step, e, x)
  {
  }

  lemma TurnNearer(d: Daemon, step: Step, x: string)
    requires d.watchdog.Some? && x in d.server.pending && step.WatchdogTurn? && WatchdogOk(d.watchdog.value)
    ensures var e := Next(d, step); e.watchdog.Some? && Nearer(d, step, e, x)
  {
    hide RetryDelay;
  }

  lemma CallsNearer(d: Daemon, step: Step, x: string)
    requires Inv(d) && d.server.alive && x in d.server.pending && step.WatchdogCalls?
    ensures var e := Next(d, step); e.watchdog.Some? && Nearer(d, step, e, x)
  {
    hide Inv;
    InvHasWatchdog(d);
    OnePlace(d, x);
    if InSlot(d, x) {
      assert !InFlight(d, x);
    }
  }

  lemma DeliverNearer(d: Daemon, step: Step, x: string)
    requires Inv(d) && d.server.alive && x in d.server.pending && step.DeliverQueued?
    ensures var e := Next(d, step);
            && e.watchdog.Some?
            && (HasCompleted(e.server, d.server.pending[x].ticket) || Nearer(d, step, e, x))
  {
    hide Inv;
    hide SafeDetail;
    InvHasWatchdog(d);
    var e := Next(d, step);
    OnePlace(d, x);
    if Queued(d, x, 0) {
      var n := |d.server.completed|;
      assert e.server.completed[n].ticket == d.server.pending[x].ticket;
    } else {
      forall k: nat | Queued(d, x, k) ensures k > 0 && Queued(e, x, k - 1) {
      }
    }
  }

  /** One step, whatever it is, completes a pending request or brings it no further from its answer. */
  lemma StepServes(d: Daemon, step: Step, x: string)
    requires Inv(d) && d.server.alive && x in d.server.pending && !step.DestroyServer?
    ensures var e := Next(d, step);
            && e.watchdog.Some? && Inv(e) && e.server.alive
            && (HasCompleted(e.server, d.server.pending[x].ticket) || Nearer(d, step, e, x))
  {
    hide Inv;
    hide Nearer;
    hide HasCompleted;
    hide KeepsPending;
    hide ProcessCommand;
    hide MainLoopTurn;
    InvHasWatchdog(d);
    StepKeepsInv(d, step);
    StepKeepsAlive(d, step);
    WatchdogStays(d, step);
    match step
    case Message(client, command, parts, world) =>
      MessageKeeps(d, client, command, parts, world);
      NothingKeeps(d);
      assert KeepsPending(d, Next(d, step));
      MessageNearer(d, step, Next(d, step), x);
    case WatchdogTurn(turn) => TurnNearer(d, step, x);
    case WatchdogCalls => CallsNearer(d, step, x);
    case DeliverQueued => DeliverNearer(d, step, x);
    case _ => ServerStepNearer(d, step, x);
  }

  lemma NothingKeeps(d: Daemon)
    requires d.watchdog.Some?
    ensures KeepsPending(d, d)
  {
  }

  lemma StepKeepsAlive(d: Daemon, step: Step)
    requires d.watchdog.Some? && !step.DestroyServer?
    ensures Next(d, step).server.alive == d.server.alive
    ensures d.server.completed <= Next(d, step).server.completed
    ensures d.server.registered <= Next(d, step).server.registered
  {
    hide ProcessCommand;
    hide MainLoopTurn;
    hide SafeDetail;
    if step.Message? {
      MessageKeeps(d, step.client, step.command, step.parts, step.world);
    }
  }

  // ----- runs

  ghost predicate ServerLives(steps: seq<Step>) {
    forall i :: 0 <= i < |steps| ==> !steps[i].DestroyServer?
  }

  /** The useful turns of the watchdog among the steps of a run. */
  function UsefulTurns(d: Daemon, steps: seq<Step>): nat
    requires d.watchdog.Some?
    decreases |steps|
  {
    if steps == [] then 0
    else
      WatchdogStays(d, steps[0]);
      (if IsUseful(d, steps[0]) then 1 else 0) + UsefulTurns(Next(d, steps[0]), steps[1..])
  }

  ghost predicate CallsBack(steps: seq<Step>) {
    exists i :: 0 <= i < |steps| && steps[i].WatchdogCalls?
  }

  function Deliveries(steps: seq<Step>): nat {
    if steps == [] then 0 else (if steps[0].DeliverQueued? then 1 else 0) + Deliveries(steps[1..])
  }

  lemma CompletedStays(s: Server, u: Server, t: nat)
    requires s.completed <= u.completed && HasCompleted(s, t)
    ensures HasCompleted(u, t)
  {
    var i :| 0 <= i < |s.completed| && s.completed[i].ticket == t;
    assert u.completed[i].ticket == t;
  }

  lemma {:induction false} RunGoesOn(d: Daemon, steps: seq<Step>)
    requires Inv(d) && ServerLives(steps)
    ensures var e := Run(d, steps);
            && Inv(e) && e.server.alive == d.server.alive
            && d.server.completed <= e.server.completed && d.server.registered <= e.server.registered
    decreases |steps|
  {
    hide Inv;
    hide Next;
    if steps != [] {
      InvHasWatchdog(d);
      StepKeepsInv(d, steps[0]);
      StepKeepsAlive(d, steps[0]);
      RunGoesOn(Next(d, steps[0]), steps[1..]);
    }
  }

  /** Over a run a pending request is completed, or is no further from its answer: it waits for a start
      only if it did before and too few useful turns passed, and is in flight only if it waited before,
      or was in flight and no callback was called. */
  ghost predicate Advanced(d: Daemon, steps: seq<Step>, e: Daemon, x: string)
    requires d.watchdog.Some? && e.watchdog.Some? && x in d.server.pending
  {
    HasCompleted(e.server, d.server.pending[x].ticket) ||
    (&& x in e.server.pending && e.server.pending[x] == d.server.pending[x]
     && (InSlot(e, x) ==> InSlot(d, x) && Rank(e.watchdog.value) + UsefulTurns(d, steps) <= Rank(d.watchdog.value))
     && (InFlight(e, x) ==> InSlot(d, x) || (InFlight(d, x) && !CallsBack(steps))))
  }

  lemma {:induction false} RequestAdvances(d: Daemon, steps: seq<Step>, x: string)
    requires Inv(d) && d.server.alive && ServerLives(steps) && x in d.server.pending
    ensures Run(d, steps).watchdog.Some? && Advanced(d, steps, Run(d, steps), x)
    decreases |steps|
  {
    hide Inv;
    hide Next;
    hide HasCompleted;
    hide InSlot;
    hide InFlight;
    hide Queued;
    hide Rank;
    hide IsUseful;
    InvHasWatchdog(d);
    if steps == [] {
    } else {
      var step, rest := steps[0], steps[1..];
      var m, e := Next(d, step), Run(d, steps);
      StepServes(d, step, x);
      RunGoesOn(m, rest);
      if HasCompleted(m.server, d.server.pending[x].ticket) {
        CompletedStays(m.server, e.server, d.server.pending[x].ticket);
      } else {
        RequestAdvances(m, rest, x);
        assert steps[0].WatchdogCalls? || CallsBack(rest) <== CallsBack(steps);
      }
    }
  }

  /** The queue is first in, first out: as many deliveries as it takes complete a queued request,
      whatever happens in between. */
  lemma {:induction false} QueueIsServed(d: Daemon, steps: seq<Step>, x: string, k: nat)
    requires Inv(d) && d.server.alive && ServerLives(steps) && x in d.server.pending && Queued(d, x, k)
    requires Deliveries(steps) > k
    ensures HasCompleted(Run(d, steps).server, d.server.pending[x].ticket)
    decreases |steps|
  {
    hide Inv;
    hide Next;
    hide HasCompleted;
    hide InSlot;
    hide InFlight;
    hide Rank;
    hide IsUseful;
    InvHasWatchdog(d);
    var step, rest := steps[0], steps[1..];
    var m := Next(d, step);
    StepServes(d, step, x);
    RunGoesOn(m, rest);
    if HasCompleted(m.server, d.server.pending[x].ticket) {
      CompletedStays(m.server, Run(d, steps).server, d.server.pending[x].ticket);
    } else {
      QueueIsServed(m, rest, x, if step.DeliverQueued? then k - 1 else k);
    }
  }

  /** The run is long enough for every request pending in `d`: first two useful turns of the watchdog,
      then a callback, then a delivery for each invocation queued by then. */
  ghost predicate IsFair(d: Daemon, turns: seq<Step>, calls: seq<Step>, delivers: seq<Step>)
    requires d.watchdog.Some?
  {
    && UsefulTurns(d, turns) >= 2 && CallsBack(calls)
    && Deliveries(delivers) >= |Run(Run(d, turns), calls).server.queue|
  }

  lemma RequestIsAnswered(d: Daemon, turns: seq<Step>, calls: seq<Step>, delivers: seq<Step>, x: string)
    requires Inv(d) && d.server.alive && x in d.server.pending
    requires ServerLives(turns) && ServerLives(calls) && ServerLives(delivers) && IsFair(d, turns, calls, delivers)
    ensures HasCompleted(Run(Run(Run(d, turns), calls), delivers).server, d.server.pending[x].ticket)
  {
    hide Inv;
    hide Run;
    hide HasCompleted;
    hide UsefulTurns;
    hide Deliveries;
    hide CallsBack;
    InvHasWatchdog(d);
    var t, m := d.server.pending[x].ticket, Run(d, turns);
    var n, e := Run(m, calls), Run(Run(m, calls), delivers);
    RunGoesOn(d, turns);
    RunGoesOn(m, calls);
    RunGoesOn(n, delivers);
    RequestAdvances(d, turns, x);
    if HasCompleted(m.server, t) {
      CompletedStays(m.server, e.server, t);
    } else {
      assert !InSlot(m, x);
      RequestAdvances(m, calls, x);
      if HasCompleted(n.server, t) {
        CompletedStays(n.server, e.server, t);
      } else {
        assert !InSlot(n, x) && !InFlight(n, x);
        OnePlace(n, x);
        var k: nat :| Queued(n, x, k);
        QueueIsServed(n, delivers, x, k);
      }
    }
  }

  lemma EveryRequestIsCompleted(d: Daemon, turns: seq<Step>, calls: seq<Step>, delivers: seq<Step>)
    requires Inv(d) && d.server.alive
    requires ServerLives(turns) && ServerLives(calls) && ServerLives(delivers) && IsFair(d, turns, calls, delivers)
    ensures var e := Run(d, turns + calls + delivers);
            && (forall t: nat :: t < |d.server.registered| ==> HasCompleted(e.server, t))
            && (forall i, j :: 0 <= i < j < |e.server.completed| ==>
                  e.server.completed[i].ticket != e.server.completed[j].ticket)
  {
    hide Run;
    hide HasCompleted;
    hide WatchdogOk;
    hide IsBuiltCommand;
    hide Places;
    hide IsFair;
    var m := Run(d, turns);
    var n := Run(m, calls);
    var e := Run(n, delivers);
    RunConcat(d, turns + calls, delivers);
    RunConcat(d, turns, calls);
    RunGoesOn(d, turns);
    RunGoesOn(m, calls);
    RunGoesOn(n, delivers);
    forall t: nat | t < |d.server.registered| ensures HasCompleted(e.server, t) {
      if HasPending(d.server, t) {
        var x :| x in d.server.pending && d.server.pending[x].ticket == t;
        RequestIsAnswered(d, turns, calls, delivers, x);
      } else {
        CompletedStays(d.server, m.server, t);
        CompletedStays(m.server, n.server, t);
        CompletedStays(n.server, e.server, t);
      }
    }
  }

  /** From any reachable state with a live server, over every interleaving in which the server lives and
      that has two useful turns of the watchdog, then a callback, then a delivery for each invocation
      queued by then: every request ever registered before is completed, none twice, and unless its client
      has gone its answer is written to it. */
  lemma EveryRequestIsAnswered(d: Daemon, turns: seq<Step>, calls: seq<Step>, delivers: seq<Step>)
    requires Inv(d) && d.server.alive && Replies(d.server)
    requires ServerLives(turns) && ServerLives(calls) && ServerLives(delivers) && IsFair(d, turns, calls, delivers)
    ensures var e := Run(d, turns + calls + delivers);
            && d.server.registered <= e.server.registered
            && (forall t: nat :: t < |d.server.registered| ==> Answered(e.server, t))
            && (forall i, j :: 0 <= i < j < |e.server.completed| ==>
                  e.server.completed[i].ticket != e.server.completed[j].ticket)
  {
    hide Inv;
    hide Run;
    hide HasCompleted;
    hide Answered;
    hide Replies;
    hide IsFair;
    InvHasWatchdog(d);
    EveryRequestIsCompleted(d, turns, calls, delivers);
    RunReplies(d, turns + calls + delivers);
    RunGoesOn(d, turns + calls + delivers);
    var e := Run(d, turns + calls + delivers);
    forall t: nat | t < |d.server.registered| ensures Answered(e.server, t) {
      CompletedIsAnswered(e.server, t);
    }
  }

  // ----- such a run exists

  function Delivers(n: nat): seq<Step> {
    seq(n, _ => DeliverQueued)
  }

  lemma {:induction false} DeliversDeliver(n: nat)
    ensures Deliveries(Delivers(n)) == n && ServerLives(Delivers(n))
    decreases n
  {
    if n > 0 {
      DeliversDeliver(n - 1);
      assert Delivers(n)[1..] == Delivers(n - 1);
    }
  }

  function QuietTurns(a: Turn, b: Turn): seq<Step> {
    [WatchdogCalls, WatchdogTurn(a), WatchdogCalls, WatchdogTurn(b)]
  }

  lemma UsefulOne(d: Daemon, step: Step, rest: seq<Step>)
    requires d.watchdog.Some?
    ensures Next(d, step).watchdog.Some?
    ensures UsefulTurns(d, [step] + rest) ==
            (if IsUseful(d, step) then 1 else 0) + UsefulTurns(Next(d, step), rest)
  {
    hide Next;
    hide IsUseful;
    WatchdogStays(d, step);
    assert ([step] + rest)[0] == step && ([step] + rest)[1..] == rest;
  }

  /** Left alone, two due turns with their callbacks and the deliveries are enough. */
  lemma QuietRunIsFair(d: Daemon, a: Turn, b: Turn)
    requires d.watchdog.Some? && a.due && b.due
    ensures var turns, calls := QuietTurns(a, b), [WatchdogCalls];
            var delivers := Delivers(|Run(Run(d, turns), calls).server.queue|);
            IsFair(d, turns, calls, delivers) && ServerLives(turns) && ServerLives(calls) && ServerLives(delivers)
  {
    hide Run;
    hide MainLoopTurn;
    hide UsefulTurns;
    hide Deliveries;
    var turns, calls := QuietTurns(a, b), [WatchdogCalls];
    DeliversDeliver(|Run(Run(d, turns), calls).server.queue|);
    assert calls[0].WatchdogCalls?;
    var d1 := Next(d, WatchdogCalls);
    var d2 := Next(d1, WatchdogTurn(a));
    var d3 := Next(d2, WatchdogCalls);
    assert turns == [WatchdogCalls] + ([WatchdogTurn(a)] + ([WatchdogCalls] + ([WatchdogTurn(b)] + [])));
    UsefulOne(d3, WatchdogTurn(b), []);
    UsefulOne(d2, WatchdogCalls, [WatchdogTurn(b)] + []);
    UsefulOne(d1, WatchdogTurn(a), [WatchdogCalls] + ([WatchdogTurn(b)] + []));
    UsefulOne(d, WatchdogCalls, [WatchdogTurn(a)] + ([WatchdogCalls] + ([WatchdogTurn(b)] + [])));
  }

  lemma {:induction false} QuietRunRegistersNothing(d: Daemon, steps: seq<Step>)
    requires d.watchdog.Some? && forall i :: 0 <= i < |steps| ==> !steps[i].Message? && !steps[i].DestroyServer?
    ensures Run(d, steps).server.registered == d.server.registered
    decreases |steps|
  {
    hide Next;
    if steps != [] {
      WatchdogStays(d, steps[0]);
      QuietStepRegistersNothing(d, steps[0]);
      QuietRunRegistersNothing(Next(d, steps[0]), steps[1..]);
    }
  }

  lemma QuietStepRegistersNothing(d: Daemon, step: Step)
    requires d.watchdog.Some? && !step.Message?
    ensures Next(d, step).server.registered == d.server.registered
  {
    hide MainLoopTurn;
    hide SafeDetail;
  }

  /** So after a quiet run nothing is pending at all. */
  lemma QuietRunAnswers(d: Daemon, a: Turn, b: Turn)
    requires Inv(d) && d.server.alive && a.due && b.due
    ensures var turns, calls := QuietTurns(a, b), [WatchdogCalls];
            var delivers := Delivers(|Run(Run(d, turns), calls).server.queue|);
            Run(d, turns + calls + delivers).server.pending == map[]
  {
    hide Run;
    hide IsFair;
    hide HasCompleted;
    hide WatchdogOk;
    hide IsBuiltCommand;
    hide Places;
    hide Faithful;
    var turns, calls := QuietTurns(a, b), [WatchdogCalls];
    var delivers := Delivers(|Run(Run(d, turns), calls).server.queue|);
    var steps := turns + calls + delivers;
    QuietRunIsFair(d, a, b);
    EveryRequestIsCompleted(d, turns, calls, delivers);
    QuietRunRegistersNothing(d, steps);
    RunGoesOn(d, steps);
    var s := Run(d, steps).server;
    NoTicketNoRequest(s);
  }

  lemma NoTicketNoRequest(s: Server)
    requires forall t: nat :: !HasPending(s, t)
    ensures s.pending == map[]
  {
    hide HasPending;
    forall x | x in s.pending ensures HasPending(s, s.pending[x].ticket) {
      PendingHas(s, x);
    }
  }

  // ----- connections are not taken over

  /** A connection that is gone stays gone: its number is never given to another. */
  lemma {:induction false} GoneStaysGone(d: Daemon, steps: seq<Step>, client: nat)
    requires d.watchdog.Some? && client < d.server.connections && client !in d.server.clients
    ensures var e := Run(d, steps); client < e.server.connections && client !in e.server.clients
    decreases |steps|
  {
    hide Next;
    if steps != [] {
      WatchdogStays(d, steps[0]);
      ConnectionsGrow(d, steps[0]);
      GoneStaysGone(Next(d, steps[0]), steps[1..], client);
    }
  }

  lemma ConnectionsGrow(d: Daemon, step: Step)
    requires d.watchdog.Some?
    ensures var s, t := d.server, Next(d, step).server;
            && s.connections <= t.connections
            && forall c :: c in t.clients ==> c in s.clients || s.connections <= c < t.connections
  {
    hide ProcessCommand;
    hide MainLoopTurn;
    hide SafeDetail;
    if step.Message? {
      MessageKeeps(d, step.client, step.command, step.parts, step.world);
    }
  }
}
