/** What clients are told: every completion whose client is still connected is written to it, in order, and
    no result is written that no completion owes. */
module DaemonReplies {
  import opened Text
  import opened DaemonProtocol
  import opened DaemonLaws
  import opened DaemonRuns

  // ----- what is owed

  /** The answer owed to a registration. */
  function AnswerTo(r: Registration, o: Outcome): Response {
    if r.legacy then (if o.success then Ack else Error)
    else CommandResult(r.id, r.command, o.success, SafeDetail(o.detail))
  }

  /** The answers owed, in order: one for each completion whose client was still there. */
  function Owed(registered: seq<Registration>, completed: seq<Completion>): seq<(nat, Response)> {
    if completed == [] then []
    else
      var c := completed[|completed| - 1];
      Owed(registered, completed[..|completed| - 1]) +
      (if c.told && c.ticket < |registered| then [(c.client, AnswerTo(registered[c.ticket], c.outcome))] else [])
  }

  /** The command results among what was written. */
  function Results(written: seq<(nat, Response)>): seq<(nat, Response)> {
    if written == [] then []
    else
      var w := written[|written| - 1];
      Results(written[..|written| - 1]) + (if w.1.CommandResult? then [w] else [])
  }

  /** `xs` stands in `ys`, in order, each entry at a place of its own. */
  predicate StandsIn<T(==)>(xs: seq<T>, ys: seq<T>) {
    xs == [] ||
    (ys != [] &&
     ((xs[|xs| - 1] == ys[|ys| - 1] && StandsIn(xs[..|xs| - 1], ys[..|ys| - 1])) || StandsIn(xs, ys[..|ys| - 1])))
  }

  // ----- the invariant

  /** Connections are numbered below `connections`, and so are the clients of registrations. */
  ghost predicate Numbered(s: Server) {
    && (forall c :: c in s.clients ==> c < s.connections)
    && (forall t :: 0 <= t < |s.registered| ==> s.registered[t].client < s.connections)
  }

  /** Pending and completed entries are those of their registration. */
  ghost predicate Traced(s: Server) {
    && (forall id :: id in s.pending ==>
          var p := s.pending[id];
          p.ticket < |s.registered| && s.registered[p.ticket] == Registration(p.client, id, p.command, p.legacy))
    && (forall i :: 0 <= i < |s.completed| ==>
          s.completed[i].ticket < |s.registered| &&
          s.registered[s.completed[i].ticket].client == s.completed[i].client)
  }

  /** Whoever was not told is gone. */
  ghost predicate TellsClients(s: Server) {
    forall i :: 0 <= i < |s.completed| ==> s.completed[i].told || s.completed[i].client !in s.clients
  }

  /** Each answer owed is written, in order; and the command results written are just those owed. */
  ghost predicate WritesAnswers(s: Server) {
    && StandsIn(Owed(s.registered, s.completed), s.written)
    && Results(s.written) == Results(Owed(s.registered, s.completed))
  }

  ghost predicate Replies(s: Server) {
    Numbered(s) && Traced(s) && TellsClients(s) && WritesAnswers(s)
  }

  // ----- lists

  lemma StandsAppended<T>(xs: seq<T>, ys: seq<T>, y: T)
    requires StandsIn(xs, ys)
    ensures StandsIn(xs, ys + [y]) && StandsIn(xs + [y], ys + [y])
  {
    assert (ys + [y])[..|ys|] == ys && (xs + [y])[..|xs|] == xs;
  }

  lemma {:induction false} StandsEach<T>(xs: seq<T>, ys: seq<T>, x: T)
    requires StandsIn(xs, ys) && x in xs
    ensures x in ys
    decreases |ys|
  {
    var front := ys[..|ys| - 1];
    if StandsIn(xs, front) {
      StandsEach(xs, front, x);
    } else {
      var before := xs[..|xs| - 1];
      assert xs == before + [xs[|xs| - 1]];
      if x in before {
        StandsEach(before, front, x);
      }
    }
  }

  lemma ResultsSnoc(written: seq<(nat, Response)>, w: (nat, Response))
    ensures Results(written + [w]) == Results(written) + (if w.1.CommandResult? then [w] else [])
  {
    assert (written + [w])[..|written|] == written;
  }

  lemma {:induction false} ResultsIn(written: seq<(nat, Response)>, w: (nat, Response))
    ensures w in Results(written) <==> w in written && w.1.CommandResult?
    decreases |written|
  {
    if written != [] {
      var front, last := written[..|written| - 1], written[|written| - 1];
      ResultsIn(front, w);
      assert written == front + [last];
    }
  }

  lemma OwedSnoc(registered: seq<Registration>, completed: seq<Completion>, c: Completion)
    requires c.ticket < |registered|
    ensures Owed(registered, completed + [c]) ==
            Owed(registered, completed) +
            (if c.told then [(c.client, AnswerTo(registered[c.ticket], c.outcome))] else [])
  {
    hide AnswerTo;
    assert (completed + [c])[..|completed|] == completed;
  }

  lemma {:induction false} OwedStays(registered: seq<Registration>, more: seq<Registration>, completed: seq<Completion>)
    requires registered <= more
    requires forall i :: 0 <= i < |completed| ==> completed[i].ticket < |registered|
    ensures Owed(more, completed) == Owed(registered, completed)
    decreases |completed|
  {
    hide AnswerTo;
    if completed != [] {
      OwedStays(registered, more, completed[..|completed| - 1]);
    }
  }

  /** An answer is owed for a completion. */
  lemma {:induction false} OwedFor(registered: seq<Registration>, completed: seq<Completion>, w: (nat, Response))
    ensures w in Owed(registered, completed) <==> exists i :: OwesAt(registered, completed, i, w)
    decreases |completed|
  {
    hide AnswerTo;
    if completed != [] {
      var n := |completed| - 1;
      OwedFor(registered, completed[..n], w);
      forall i ensures OwesAt(registered, completed, i, w) <==>
                       OwesAt(registered, completed[..n], i, w) || (i == n && OwesAt(registered, completed, n, w)) {
      }
      if w in Owed(registered, completed) && w !in Owed(registered, completed[..n]) {
        assert OwesAt(registered, completed, n, w);
      }
    }
  }

  ghost predicate OwesAt(registered: seq<Registration>, completed: seq<Completion>, i: int, w: (nat, Response)) {
    && 0 <= i < |completed| && completed[i].told && completed[i].ticket < |registered|
    && w == (completed[i].client, AnswerTo(registered[completed[i].ticket], completed[i].outcome))
  }

  // ----- what the server does keeps it

  lemma WriteReplies(s: Server, client: nat, r: Response)
    requires Replies(s) && !r.CommandResult?
    ensures Replies(Write(s, client, r))
  {
    hide Owed;
    hide StandsIn;
    hide Results;
    StandsAppended(Owed(s.registered, s.completed), s.written, (client, r));
    ResultsSnoc(s.written, (client, r));
  }

  lemma RegisterReplies(s: Server, client: nat, id: string, command: string, legacy: bool)
    requires Replies(s) && client in s.clients
    ensures Replies(Register(s, client, id, command, legacy).0)
  {
    hide Owed;
    hide StandsIn;
    hide Results;
    hide IsValidRequestId;
    var (t, ok) := Register(s, client, id, command, legacy);
    if ok {
      OwedStays(s.registered, t.registered, s.completed);
    } else {
      WriteReplies(s, client, Error);
    }
  }

  lemma CompleteTraces(s: Server, o: Outcome)
    requires Numbered(s) && Traced(s) && TellsClients(s)
    ensures Numbered(Complete(s, o)) && Traced(Complete(s, o)) && TellsClients(Complete(s, o))
  {
    hide SafeDetail;
    hide ResponseFor;
  }

  lemma CompleteWrites(s: Server, o: Outcome)
    requires Traced(s) && WritesAnswers(s)
    ensures WritesAnswers(Complete(s, o))
  {
    hide Owed;
    hide StandsIn;
    hide Results;
    hide SafeDetail;
    if o.id in s.pending {
      var p := s.pending[o.id];
      var c := Completion(p.ticket, p.client, o, p.client in s.clients);
      var owed, w := Owed(s.registered, s.completed), (p.client, ResponseFor(p, o));
      OwedSnoc(s.registered, s.completed, c);
      assert w.1 == AnswerTo(s.registered[p.ticket], o);
      if c.told {
        StandsAppended(owed, s.written, w);
        ResultsSnoc(s.written, w);
        ResultsSnoc(owed, w);
      } else {
        assert owed + [] == owed;
      }
    }
  }

  lemma CompleteReplies(s: Server, o: Outcome)
    requires Replies(s)
    ensures Replies(Complete(s, o))
  {
    hide Complete;
    hide Numbered;
    hide Traced;
    hide TellsClients;
    hide WritesAnswers;
    CompleteTraces(s, o);
    CompleteWrites(s, o);
  }

  /** Queues and liveness do not matter to it. */
  lemma SameReplies(s: Server, t: Server)
    requires Replies(s) && t.clients == s.clients && t.connections == s.connections && t.written == s.written
    requires t.registered == s.registered && t.completed == s.completed
    requires forall id :: id in t.pending ==> id in s.pending && t.pending[id] == s.pending[id]
    ensures Replies(t)
  {
    hide Owed;
    hide StandsIn;
    hide Results;
  }

  lemma PostsReply(s: Server, os: seq<Outcome>)
    requires Replies(s)
    ensures Replies(PostAll(s, os))
  {
    hide Replies;
    hide PostAll;
    PostAllQueues(s, os);
    SameReplies(s, PostAll(s, os));
  }

  lemma AcceptReplies(s: Server)
    requires Replies(s)
    ensures Replies(Accept(s))
  {
    hide Owed;
    hide StandsIn;
    hide Results;
  }

  lemma LeaveReplies(s: Server, client: nat)
    requires Replies(s)
    ensures Replies(s.(clients := s.clients - {client}))
  {
    hide Owed;
    hide StandsIn;
    hide Results;
  }

  // ----- and so does every step

  lemma ApplyReplies(d: Daemon, id: string, world: World)
    requires d.watchdog.Some? && Replies(d.server)
    ensures Replies(ApplyWatchdogCommand(d, id, world).server)
  {
    hide Replies;
    hide Complete;
    hide ValidateConfigFile;
    hide ModeArg;
    hide CommandLine;
    hide PostAll;
    forall o ensures Replies(Complete(d.server, o)) {
      CompleteReplies(d.server, o);
    }
    forall os ensures Replies(PostAll(d.server, os)) {
      PostsReply(d.server, os);
    }
  }

  lemma ClearReplies(d: Daemon, id: string)
    requires d.watchdog.Some? && Replies(d.server)
    ensures Replies(ClearWatchdogCommand(d, id).server)
  {
    hide Replies;
    hide Complete;
    hide PostAll;
    var (w, called) := SetProcessConfig(d.watchdog.value, "", false, None);
    PostsReply(d.server, called);
    CompleteReplies(PostAll(d.server, called), Outcome(id, true, ""));
  }

  lemma ConfigFileReplies(d: Daemon, client: nat, parts: seq<string>, world: World)
    requires Replies(d.server) && client in d.server.clients
    ensures Replies(ProcessConfigFile(d, client, parts, world).server)
  {
    hide Replies;
    hide Register;
    hide Complete;
    hide ReadConfigRequest;
    hide ValidateConfigFile;
    WriteReplies(d.server, client, Error);
    var request := ReadConfigRequest(parts, world.legacyId);
    if request.Some? {
      var r := request.value;
      var (s, ok) := Register(d.server, client, r.id, "configFile", r.legacy);
      RegisterReplies(d.server, client, r.id, "configFile", r.legacy);
      forall o ensures Replies(Complete(s, o)) {
        CompleteReplies(s, o);
      }
    }
  }

  lemma StartOrStopReplies(d: Daemon, client: nat, command: string, parts: seq<string>, world: World)
    requires d.watchdog.Some? && Replies(d.server) && client in d.server.clients
    ensures Replies(StartOrStop(d, client, command, parts, world).server)
  {
    hide Replies;
    hide Register;
    hide ApplyWatchdogCommand;
    hide ClearWatchdogCommand;
    WriteReplies(d.server, client, Error);
    if |parts| == 1 || |parts| == 2 {
      var id := if |parts| == 1 then world.legacyId else parts[1];
      var (s, ok) := Register(d.server, client, id, command, |parts| == 1);
      RegisterReplies(d.server, client, id, command, |parts| == 1);
      ApplyReplies(d.(server := s), id, world);
      ClearReplies(d.(server := s), id);
    }
  }

  lemma MessageReplies(d: Daemon, client: nat, command: string, parts: seq<string>, world: World)
    requires d.watchdog.Some? && Replies(d.server) && client in d.server.clients
    ensures Replies(ProcessCommand(d, client, command, parts, world).server)
  {
    hide Replies;
    hide StartOrStop;
    hide ProcessConfigFile;
    WriteReplies(d.server, client, Error);
    WriteReplies(d.server, client, Ack);
    WriteReplies(d.server, client, LogPath);
    StartOrStopReplies(d, client, command, parts, world);
    ConfigFileReplies(d, client, parts, world);
  }

  lemma StepReplies(d: Daemon, step: Step)
    requires d.watchdog.Some? && Replies(d.server)
    ensures Replies(Next(d, step).server)
  {
    hide Replies;
    hide ProcessCommand;
    hide MainLoopTurn;
    hide Complete;
    var s := d.server;
    match step
    case Message(client, command, parts, world) =>
      if client in s.clients {
        MessageReplies(d, client, command, parts, world);
      }
    case WatchdogCalls =>
      if d.watchdog.value.flight.Some? {
        SameReplies(s, Post(s, d.watchdog.value.flight.value));
      }
    case DeliverQueued =>
      if s.alive && s.queue != [] {
        SameReplies(s, s.(queue := s.queue[1..]));
        CompleteReplies(s.(queue := s.queue[1..]), s.queue[0]);
      }
    case Connect => AcceptReplies(s);
    case Disconnect(client) => LeaveReplies(s, client);
    case DestroyServer => SameReplies(s, Destroy(s));
    case WatchdogTurn(_) =>
  }

  lemma NoReplies()
    ensures Replies(EMPTY_SERVER)
  {
  }

  lemma {:induction false} RunReplies(d: Daemon, steps: seq<Step>)
    requires d.watchdog.Some? && Replies(d.server)
    ensures Replies(Run(d, steps).server)
    decreases |steps|
  {
    hide Next;
    hide Replies;
    if steps != [] {
      WatchdogStays(d, steps[0]);
      StepReplies(d, steps[0]);
      RunReplies(Next(d, steps[0]), steps[1..]);
    }
  }

  /** Over every run from start-up: a completed request's client was told, or is gone; every answer owed
      to a client that was told stands among what was written, in order and at a place of its own; and the
      command results written are exactly those owed: to the client that registered the request, with its
      id, its command and its outcome. */
  lemma AnswersAreWritten(persisted: string, foreground: bool, corePath: string, world: World, steps: seq<Step>)
    ensures var s := Reached(persisted, foreground, corePath, world, steps).server;
            && (forall i :: 0 <= i < |s.completed| ==> s.completed[i].told || s.completed[i].client !in s.clients)
            && StandsIn(Owed(s.registered, s.completed), s.written)
            && Results(s.written) == Results(Owed(s.registered, s.completed))
            && (forall i :: 0 <= i < |s.completed| ==>
                  s.completed[i].ticket < |s.registered| &&
                  s.registered[s.completed[i].ticket].client == s.completed[i].client)
  {
    hide Run;
    hide StartUp;
    hide Owed;
    hide Results;
    hide StandsIn;
    ReachedReplies(persisted, foreground, corePath, world, steps);
  }

  lemma ReachedReplies(persisted: string, foreground: bool, corePath: string, world: World, steps: seq<Step>)
    ensures Replies(Reached(persisted, foreground, corePath, world, steps).server)
  {
    hide Run;
    hide StartUp;
    hide Replies;
    var start := StartUp(Initial(persisted, foreground, corePath), world);
    StartUpEstablishesInv(persisted, foreground, corePath, world);
    StartUpReplies(persisted, foreground, corePath, world);
    RunReplies(start, steps);
  }

  lemma StartUpReplies(persisted: string, foreground: bool, corePath: string, world: World)
    ensures var start := StartUp(Initial(persisted, foreground, corePath), world);
            start.watchdog.Some? && Replies(start.server)
  {
    hide Replies;
    hide ApplyWatchdogCommand;
    NoReplies();
    StartUpEstablishesInv(persisted, foreground, corePath, world);
    InvHasWatchdog(StartUp(Initial(persisted, foreground, corePath), world));
    ApplyReplies(Daemon(EMPTY_SERVER, Some(FRESH_WATCHDOG), persisted, persisted, foreground, corePath), "", world);
  }

  // ----- one request

  /** Request `t` is completed, and unless its client is gone, its answer is written to it. */
  ghost predicate Answered(s: Server, t: nat) {
    exists i :: AnsweredBy(s, t, i)
  }

  ghost predicate AnsweredBy(s: Server, t: nat, i: int) {
    && 0 <= i < |s.completed| && s.completed[i].ticket == t < |s.registered|
    && var r := s.registered[t];
    r.client in s.clients ==> (r.client, AnswerTo(r, s.completed[i].outcome)) in s.written
  }

  lemma CompletedIsAnswered(s: Server, t: nat)
    requires Replies(s) && HasCompleted(s, t)
    ensures Answered(s, t)
  {
    hide AnswerTo;
    hide Owed;
    hide StandsIn;
    hide Results;
    var i :| 0 <= i < |s.completed| && s.completed[i].ticket == t;
    var c := s.completed[i];
    if c.told {
      var w := (c.client, AnswerTo(s.registered[t], c.outcome));
      OwedFor(s.registered, s.completed, w);
      assert OwesAt(s.registered, s.completed, i, w);
      StandsEach(Owed(s.registered, s.completed), s.written, w);
    }
    assert AnsweredBy(s, t, i);
  }

  /** Every command result written answers a completed request: its own client's, with its own id. */
  lemma ResultIsOwed(s: Server, w: (nat, Response)) returns (i: nat)
    requires Replies(s) && w in s.written && w.1.CommandResult?
    ensures OwesAt(s.registered, s.completed, i, w) && s.registered[s.completed[i].ticket].client == w.0
  {
    hide AnswerTo;
    hide Owed;
    hide StandsIn;
    hide Results;
    ResultsIn(s.written, w);
    ResultsIn(Owed(s.registered, s.completed), w);
    OwedFor(s.registered, s.completed, w);
    i :| OwesAt(s.registered, s.completed, i, w);
  }
}
