/** What holds of the daemon's command protocol over every run. */
module DaemonLaws {
  import opened Text
  import opened DaemonProtocol

  // ----- where a request waits

  /** The ids of outcomes on their way, with multiplicity. */
  function Ids(os: seq<Outcome>): multiset<string> {
    if os == [] then multiset{} else multiset{os[0].id} + Ids(os[1..])
  }

  /** The request of an optional callback. */
  function CallbackIds(callback: Option<string>): multiset<string> {
    if callback.Some? then multiset{callback.value} else multiset{}
  }

  function SlotIds(w: Watchdog): multiset<string> {
    CallbackIds(w.slot)
  }

  function FlightIds(w: Watchdog): multiset<string> {
    if w.flight.Some? then multiset{w.flight.value.id} else multiset{}
  }

  /** Every place an unanswered request can be: waiting for a start, in the watchdog thread's hands, or
      queued for the server. */
  function Places(d: Daemon): multiset<string>
    requires d.watchdog.Some?
  {
    SlotIds(d.watchdog.value) + FlightIds(d.watchdog.value) + Ids(d.server.queue)
  }

  lemma {:induction false} IdsConcat(a: seq<Outcome>, b: seq<Outcome>)
    ensures Ids(a + b) == Ids(a) + Ids(b)
    decreases |a|
  {
    if a == [] {
      assert a + b == b;
    } else {
      assert (a + b)[0] == a[0] && (a + b)[1..] == a[1..] + b;
      IdsConcat(a[1..], b);
    }
  }

  lemma {:induction false} PostAllQueues(s: Server, os: seq<Outcome>)
    ensures PostAll(s, os) == if s.alive then s.(queue := s.queue + os) else s
    ensures s.alive ==> Ids(PostAll(s, os).queue) == Ids(s.queue) + Ids(os)
    decreases |os|
  {
    if os == [] {
      assert s.queue + os == s.queue;
    } else {
      PostAllQueues(Post(s, os[0]), os[1..]);
      if s.alive {
        assert s.queue + [os[0]] + os[1..] == s.queue + os;
        IdsConcat(s.queue, os);
      }
    }
  }

  lemma IdsOfOne(id: string, success: bool, detail: string)
    ensures Ids([Outcome(id, success, detail)]) == multiset{id}
  {
    assert [Outcome(id, success, detail)][1..] == [];
  }

  /** The callback that waited is called; the new one is called too, or waits in its stead. */
  lemma ConfigCalls(w: Watchdog, command: string, elevate: bool, callback: Option<string>)
    requires command != "" || callback.None?
    ensures var (v, called) := SetProcessConfig(w, command, elevate, callback);
            && v.flight == w.flight && v.command == command
            && ((v.slot == callback && called == Calls(w.slot, None)) ||
                (v.slot.None? && called == Calls(w.slot, callback)))
  {
    hide Calls;
  }

  lemma CalledIds(superseded: Option<string>, immediate: Option<string>)
    ensures Ids(Calls(superseded, immediate)) == CallbackIds(superseded) + CallbackIds(immediate)
  {
    var first := if superseded.Some? then [Outcome(superseded.value, false, SUPERSEDED)] else [];
    var second := if immediate.Some? then [Outcome(immediate.value, true, "")] else [];
    IdsConcat(first, second);
    if superseded.Some? {
      IdsOfOne(superseded.value, false, SUPERSEDED);
    }
    if immediate.Some? {
      IdsOfOne(immediate.value, true, "");
    }
  }

  /** So `setProcessConfig` loses no request and repeats none. */
  lemma ConfigKeepsRequests(w: Watchdog, command: string, elevate: bool, callback: Option<string>)
    requires command != "" || callback.None?
    ensures var (v, called) := SetProcessConfig(w, command, elevate, callback);
            v.flight == w.flight && SlotIds(v) + Ids(called) == SlotIds(w) + CallbackIds(callback)
  {
    hide SetProcessConfig;
    hide Ids;
    hide Calls;
    ConfigCalls(w, command, elevate, callback);
    CalledIds(w.slot, callback);
    CalledIds(w.slot, None);
  }

  lemma PlacesAfterConfig(d: Daemon, v: Watchdog, s: Server, called: multiset<string>, extra: multiset<string>)
    requires d.watchdog.Some? && v.flight == d.watchdog.value.flight
    requires SlotIds(v) + called == SlotIds(d.watchdog.value) + extra && Ids(s.queue) == Ids(d.server.queue) + called
    ensures Places(d.(watchdog := Some(v), server := s)) == Places(d) + extra
  {
    hide Ids;
    hide SlotIds;
    var w := d.watchdog.value;
    var flight, queued := FlightIds(w), Ids(d.server.queue);
    assert SlotIds(v) + flight + (queued + called) == SlotIds(v) + called + flight + queued;
    assert SlotIds(w) + extra + flight + queued == SlotIds(w) + flight + queued + extra;
  }

  // ----- the watchdog's states

  /** A request waits only for a start that is coming; without a command there is none to come, and
      nothing is idle while there is one. */
  ghost predicate WatchdogOk(w: Watchdog) {
    && (w.slot.Some? ==> w.command != "" && w.process != Idle && w.process != Running)
    && (w.command == "" ==> w.process == Idle || w.process == StopPending)
    && (w.process == Idle ==> w.command == "")
  }

  lemma ConfigKeepsWatchdogOk(w: Watchdog, command: string, elevate: bool, callback: Option<string>)
    requires WatchdogOk(w) && (command != "" || callback.None?)
    ensures WatchdogOk(SetProcessConfig(w, command, elevate, callback).0)
  {
  }

  lemma TurnKeepsWatchdogOk(w: Watchdog, t: Turn, foreground: bool)
    requires WatchdogOk(w) && w.flight.None?
    ensures var v := MainLoopTurn(w, t, foreground);
            WatchdogOk(v) && v.command == w.command && SlotIds(v) + FlightIds(v) == SlotIds(w)
  {
    hide RetryDelay;
    var v := MainLoopTurn(w, t, foreground);
    if w.process == StartPending && w.slot.Some? {
      assert v.slot.None? && v.flight.Some? && v.flight.value.id == w.slot.value;
    } else {
      assert v.slot == w.slot && v.flight == w.flight;
    }
  }

  // ----- every registration is accounted for

  ghost predicate HasPending(s: Server, t: nat) {
    exists id :: id in s.pending && s.pending[id].ticket == t
  }

  ghost predicate HasCompleted(s: Server, t: nat) {
    exists i :: 0 <= i < |s.completed| && s.completed[i].ticket == t
  }

  /** Each registration is pending, completed or abandoned, no two of these, and completed at most
      once; what is pending or completed is what was registered. */
  ghost predicate Accounts(s: Server) {
    && (forall t: nat :: t < |s.registered| <==> HasPending(s, t) || HasCompleted(s, t) || t in s.abandoned)
    && (forall t: nat ::
          && !(HasPending(s, t) && HasCompleted(s, t))
          && (t in s.abandoned ==> !HasPending(s, t) && !HasCompleted(s, t)))
    && (forall i, j :: 0 <= i < j < |s.completed| ==> s.completed[i].ticket != s.completed[j].ticket)
    && (forall a, b :: a in s.pending && b in s.pending && a != b ==> s.pending[a].ticket != s.pending[b].ticket)
    && Faithful(s)
  }

  /** Pending and completed entries are those of their registration. */
  ghost predicate Faithful(s: Server) {
    && (forall id :: id in s.pending ==>
          var p := s.pending[id];
          p.ticket < |s.registered| && s.registered[p.ticket] == Registration(p.client, id, p.command, p.legacy))
    && (forall i :: 0 <= i < |s.completed| ==>
          var c := s.completed[i];
          c.ticket < |s.registered| && s.registered[c.ticket].client == c.client
          && s.registered[c.ticket].id == c.outcome.id)
  }

  lemma RegisterAccounts(s: Server, client: nat, id: string, command: string, legacy: bool)
    requires Accounts(s)
    ensures var (t, ok) := Register(s, client, id, command, legacy);
            && Accounts(t) && t.alive == s.alive && t.clients == s.clients && t.queue == s.queue
            && t.abandoned == s.abandoned
            && (ok ==> id !in s.pending && t.pending.Keys == s.pending.Keys + {id} && id != "")
            && (!ok ==> t.pending == s.pending)
  {
    hide HasPending;
    hide HasCompleted;
    hide IsValidRequestId;
    hide Faithful;
    ValidIdsAreSomething(id);
    RegisterFaithful(s, client, id, command, legacy);
    var (t, ok) := Register(s, client, id, command, legacy);
    if ok {
      var n := |s.registered|;
      assert !HasPending(s, n) && !HasCompleted(s, n) && n !in s.abandoned;
      forall k: nat
        ensures HasPending(t, k) <==> HasPending(s, k) || k == n
        ensures HasCompleted(t, k) <==> HasCompleted(s, k)
      {
        RegisterAdds(s, client, id, command, legacy, k);
      }
      forall a | a in s.pending ensures s.pending[a].ticket != n {
        PendingHas(s, a);
      }
    } else {
      SameHistory(s, t);
    }
  }

  lemma RegisterFaithful(s: Server, client: nat, id: string, command: string, legacy: bool)
    requires Faithful(s)
    ensures Faithful(Register(s, client, id, command, legacy).0)
    ensures forall a :: a in s.pending ==> s.pending[a].ticket < |s.registered|
  {
    hide IsValidRequestId;
  }

  lemma CompleteFaithful(s: Server, o: Outcome)
    requires Faithful(s)
    ensures Faithful(Complete(s, o))
  {
    hide SafeDetail;
    hide ResponseFor;
  }

  lemma ValidIdsAreSomething(id: string)
    ensures IsValidRequestId(id) ==> id != ""
  {
  }

  lemma RegisterAdds(s: Server, client: nat, id: string, command: string, legacy: bool, k: nat)
    requires Register(s, client, id, command, legacy).1
    ensures var t := Register(s, client, id, command, legacy).0;
            && (HasPending(t, k) <==> HasPending(s, k) || k == |s.registered|)
            && (HasCompleted(t, k) <==> HasCompleted(s, k))
  {
    hide IsValidRequestId;
    var t := Register(s, client, id, command, legacy).0;
    assert t.pending[id].ticket == |s.registered|;
    if HasPending(s, k) {
      var x :| x in s.pending && s.pending[x].ticket == k;
      assert x in t.pending && t.pending[x].ticket == k;
    }
    if HasPending(t, k) {
      var x :| x in t.pending && t.pending[x].ticket == k;
      assert x == id || (x in s.pending && s.pending[x].ticket == k);
    }
  }

  lemma SameHistory(s: Server, t: Server)
    requires Accounts(s)
    requires t.pending == s.pending && t.registered == s.registered
    requires t.completed == s.completed && t.abandoned == s.abandoned
    ensures Accounts(t)
  {
    assert forall k: nat :: HasPending(t, k) <==> HasPending(s, k);
    assert forall k: nat :: HasCompleted(t, k) <==> HasCompleted(s, k);
  }

  lemma CompleteTakes(s: Server, o: Outcome, k: nat)
    requires Accounts(s) && o.id in s.pending
    ensures HasPending(Complete(s, o), k) <==> HasPending(s, k) && k != s.pending[o.id].ticket
    ensures HasCompleted(Complete(s, o), k) <==> HasCompleted(s, k) || k == s.pending[o.id].ticket
  {
    var t, n := Complete(s, o), s.pending[o.id].ticket;
    assert t.completed[|s.completed|].ticket == n;
    if HasPending(s, k) && k != n {
      var x :| x in s.pending && s.pending[x].ticket == k;
      assert x in t.pending && t.pending[x].ticket == k;
    }
    if HasCompleted(s, k) {
      var i :| 0 <= i < |s.completed| && s.completed[i].ticket == k;
      assert t.completed[i].ticket == k;
    }
    if HasCompleted(t, k) {
      var i :| 0 <= i < |t.completed| && t.completed[i].ticket == k;
      assert i == |s.completed| || s.completed[i].ticket == k;
    }
  }

  lemma CompleteAccounts(s: Server, o: Outcome)
    requires Accounts(s)
    ensures var t := Complete(s, o);
            Accounts(t) && t.alive == s.alive && t.clients == s.clients && t.queue == s.queue
            && t.pending == s.pending - {o.id} && t.registered == s.registered && t.abandoned == s.abandoned
  {
    hide HasPending;
    hide HasCompleted;
    hide SafeDetail;
    hide ResponseFor;
    hide Faithful;
    CompleteFaithful(s, o);
    var t := Complete(s, o);
    if o.id in s.pending {
      var n := s.pending[o.id].ticket;
      PendingHas(s, o.id);
      forall k: nat
        ensures HasPending(t, k) <==> HasPending(s, k) && k != n
        ensures HasCompleted(t, k) <==> HasCompleted(s, k) || k == n
      {
        CompleteTakes(s, o, k);
      }
      forall i | 0 <= i < |s.completed| ensures s.completed[i].ticket != n {
        CompletedHas(s, i);
      }
    } else {
      assert s.pending - {o.id} == s.pending;
    }
  }

  lemma PendingHas(s: Server, id: string)
    requires id in s.pending
    ensures HasPending(s, s.pending[id].ticket)
  {
  }

  lemma CompletedHas(s: Server, i: nat)
    requires i < |s.completed|
    ensures HasCompleted(s, s.completed[i].ticket)
  {
  }

  lemma DestroyAccounts(s: Server)
    requires Accounts(s)
    ensures Accounts(Destroy(s))
  {
    var t := Destroy(s);
    forall k: nat
      ensures !HasPending(t, k)
      ensures HasCompleted(t, k) <==> HasCompleted(s, k)
      ensures k in t.abandoned <==> k in s.abandoned || HasPending(s, k)
    {
    }
  }

  // ----- the invariant

  ghost predicate Placed(d: Daemon)
    requires d.watchdog.Some?
  {
    if d.server.alive then Places(d) == multiset(d.server.pending.Keys) && d.server.abandoned == {}
    else d.server.pending == map[] && d.server.queue == []
  }

  /** A path the daemon accepts, whatever the file system says. */
  predicate IsLocal(path: string) {
    path != "" && !IsRemote(path)
  }

  /** The command was put together for an accepted path and a core mode. */
  ghost predicate IsBuiltCommand(corePath: string, command: string) {
    exists arg, path :: IsLocal(path) && arg in {"server", "client"} && command == CommandLine(corePath, arg, path)
  }

  ghost predicate Inv(d: Daemon) {
    && d.watchdog.Some?
    && Placed(d)
    && Accounts(d.server)
    && WatchdogOk(d.watchdog.value)
    && d.configFile == d.persisted
    && (d.watchdog.value.command != "" ==> IsBuiltCommand(d.corePath, d.watchdog.value.command))
  }

  /** In the middle of a handler: request `id` is registered and nowhere else yet. */
  ghost predicate Holding(d: Daemon, id: string) {
    && d.watchdog.Some? && d.server.alive && d.server.abandoned == {}
    && Places(d) + multiset{id} == multiset(d.server.pending.Keys)
    && Accounts(d.server) && WatchdogOk(d.watchdog.value) && d.configFile == d.persisted
    && (d.watchdog.value.command != "" ==> IsBuiltCommand(d.corePath, d.watchdog.value.command))
  }

  lemma RegisterHolds(d: Daemon, client: nat, id: string, command: string, legacy: bool)
    requires Inv(d) && d.server.alive
    ensures var (s, ok) := Register(d.server, client, id, command, legacy);
            (ok ==> Holding(d.(server := s), id) && id != "") && (!ok ==> Inv(d.(server := s)))
  {
    hide Register;
    hide Accounts;
    hide WatchdogOk;
    hide IsBuiltCommand;
    RegisterAccounts(d.server, client, id, command, legacy);
    var (s, ok) := Register(d.server, client, id, command, legacy);
    if ok {
      assert multiset(s.pending.Keys) == multiset(d.server.pending.Keys) + multiset{id};
    }
  }

  lemma CompleteSettles(d: Daemon, o: Outcome)
    requires Holding(d, o.id)
    ensures Inv(d.(server := Complete(d.server, o)))
  {
    hide Complete;
    hide Accounts;
    hide WatchdogOk;
    hide IsBuiltCommand;
    CompleteAccounts(d.server, o);
    var s := Complete(d.server, o);
    assert o.id in multiset(d.server.pending.Keys);
    assert s.pending.Keys == d.server.pending.Keys - {o.id};
    assert multiset(s.pending.Keys) == multiset(d.server.pending.Keys) - multiset{o.id};
  }

  lemma SetConfigFileSettles(d: Daemon, id: string, path: string, world: World)
    requires Holding(d, id)
    ensures Inv(SetConfigFile(d, id, path, world))
  {
    hide Complete;
    hide Accounts;
    hide WatchdogOk;
    hide IsBuiltCommand;
    hide ValidateConfigFile;
    if ValidateConfigFile(path, world) != "" {
      CompleteSettles(d, Outcome(id, false, ValidateConfigFile(path, world)));
    } else {
      CompleteSettles(d.(configFile := path, persisted := path), Outcome(id, true, ""));
    }
  }

  lemma AcceptedIsLocal(path: string, world: World)
    requires ValidateConfigFile(path, world) == ""
    ensures IsLocal(path) && world.fileExists(path)
  {
    assert |"config file does not exist: " + path| > 0;
  }

  lemma BuiltCommand(corePath: string, mode: int, path: string)
    requires ModeArg(mode).Some? && IsLocal(path)
    ensures CommandLine(corePath, ModeArg(mode).value, path) != ""
    ensures IsBuiltCommand(corePath, CommandLine(corePath, ModeArg(mode).value, path))
  {
  }

  lemma ConfigSetsCommand(w: Watchdog, command: string, elevate: bool, callback: Option<string>)
    ensures SetProcessConfig(w, command, elevate, callback).0.command == command
  {
  }

  lemma StartSettles(d: Daemon, id: string, world: World)
    requires Holding(d, id) && id != ""
    ensures Inv(ApplyWatchdogCommand(d, id, world))
  {
    hide Complete;
    hide Accounts;
    hide WatchdogOk;
    hide IsBuiltCommand;
    hide ValidateConfigFile;
    hide SetProcessConfig;
    hide PostAll;
    hide ModeArg;
    hide CommandLine;
    hide Signed;
    var error := ValidateConfigFile(d.configFile, world);
    if error != "" {
      CompleteSettles(d, Outcome(id, false, error));
    } else if ModeArg(world.coreMode).None? {
      CompleteSettles(d, Outcome(id, false, "invalid core mode in config: " + Signed(world.coreMode)));
    } else {
      AcceptedIsLocal(d.configFile, world);
      BuiltCommand(d.corePath, world.coreMode, d.configFile);
      var command := CommandLine(d.corePath, ModeArg(world.coreMode).value, d.configFile);
      ReplaceCommand(d, id, command, world.elevate);
    }
  }

  lemma ReplaceCommand(d: Daemon, id: string, command: string, elevate: bool)
    requires Holding(d, id) && command != "" && IsBuiltCommand(d.corePath, command)
    ensures var (w, called) := SetProcessConfig(d.watchdog.value, command, elevate, Some(id));
            Inv(d.(watchdog := Some(w), server := PostAll(d.server, called)))
  {
    hide Accounts;
    hide WatchdogOk;
    hide IsBuiltCommand;
    hide SetProcessConfig;
    hide PostAll;
    hide Ids;
    hide SlotIds;
    hide FlightIds;
    var w := d.watchdog.value;
    var (v, called) := SetProcessConfig(w, command, elevate, Some(id));
    ConfigKeepsRequests(w, command, elevate, Some(id));
    ConfigKeepsWatchdogOk(w, command, elevate, Some(id));
    ConfigSetsCommand(w, command, elevate, Some(id));
    PostAllQueues(d.server, called);
    SameHistory(d.server, PostAll(d.server, called));
    PlacesAfterConfig(d, v, PostAll(d.server, called), Ids(called), CallbackIds(Some(id)));
  }

  lemma StopSettles(d: Daemon, id: string)
    requires Holding(d, id)
    ensures Inv(ClearWatchdogCommand(d, id))
    ensures ClearWatchdogCommand(d, id).watchdog.value.command == ""
  {
    hide Accounts;
    hide WatchdogOk;
    hide IsBuiltCommand;
    hide SetProcessConfig;
    hide PostAll;
    hide Complete;
    hide Ids;
    hide SlotIds;
    hide FlightIds;
    var w := d.watchdog.value;
    var (v, called) := SetProcessConfig(w, "", false, None);
    ConfigKeepsRequests(w, "", false, None);
    ConfigKeepsWatchdogOk(w, "", false, None);
    ConfigSetsCommand(w, "", false, None);
    PostAllQueues(d.server, called);
    SameHistory(d.server, PostAll(d.server, called));
    var mid := d.(configFile := "", persisted := "", watchdog := Some(v), server := PostAll(d.server, called));
    PlacesAfterConfig(d, v, PostAll(d.server, called), Ids(called), CallbackIds(None));
    assert Holding(mid, id);
    CompleteSettles(mid, Outcome(id, true, ""));
  }

  lemma MessageKeepsInv(d: Daemon, client: nat, command: string, parts: seq<string>, world: World)
    requires Inv(d) && d.server.alive
    ensures Inv(ProcessCommand(d, client, command, parts, world))
  {
    hide Accounts;
    hide WatchdogOk;
    hide IsBuiltCommand;
    hide Register;
    hide ApplyWatchdogCommand;
    hide ClearWatchdogCommand;
    hide SetConfigFile;
    hide Complete;
    hide Holding;
    WritesChangeNothing(d, client);
    if command == "configFile" {
      ConfigMessageKeepsInv(d, client, parts, world);
    } else if (command == "start" || command == "stop") && (|parts| == 1 || |parts| == 2) {
      var legacy := |parts| == 1;
      var id := if legacy then world.legacyId else parts[1];
      RegisterHolds(d, client, id, command, legacy);
      var (s, ok) := Register(d.server, client, id, command, legacy);
      if ok && command == "start" {
        StartSettles(d.(server := s), id, world);
      } else if ok {
        StopSettles(d.(server := s), id);
      }
    } else if command == "clearSettings" {
      WritesChangeNothing(ClearSettings(d), client);
    }
  }

  lemma ConfigMessageKeepsInv(d: Daemon, client: nat, parts: seq<string>, world: World)
    requires Inv(d) && d.server.alive
    ensures Inv(ProcessConfigFile(d, client, parts, world))
  {
    hide Accounts;
    hide WatchdogOk;
    hide IsBuiltCommand;
    hide Register;
    hide SetConfigFile;
    hide Complete;
    hide Holding;
    WritesChangeNothing(d, client);
    var request := ReadConfigRequest(parts, world.legacyId);
    if request.Some? {
      var r := request.value;
      RegisterHolds(d, client, r.id, "configFile", r.legacy);
      var (s, ok) := Register(d.server, client, r.id, "configFile", r.legacy);
      if ok && r.path == "" {
        CompleteSettles(d.(server := s), Outcome(r.id, false, EMPTY_PATH));
      } else if ok {
        SetConfigFileSettles(d.(server := s), r.id, r.path, world);
      }
    }
  }

  lemma WritesChangeNothing(d: Daemon, client: nat)
    requires Inv(d)
    ensures forall r :: Inv(d.(server := Write(d.server, client, r)))
  {
    hide Accounts;
    hide WatchdogOk;
    hide IsBuiltCommand;
    forall r ensures Inv(d.(server := Write(d.server, client, r))) {
      SameHistory(d.server, Write(d.server, client, r));
    }
  }

  lemma DeliverKeepsInv(d: Daemon)
    requires Inv(d)
    ensures Inv(d.(server := Deliver(d.server)))
  {
    hide Accounts;
    hide WatchdogOk;
    hide IsBuiltCommand;
    hide Complete;
    if d.server.alive && d.server.queue != [] {
      var o, s := d.server.queue[0], d.server.(queue := d.server.queue[1..]);
      SameHistory(d.server, s);
      assert Ids(d.server.queue) == multiset{o.id} + Ids(s.queue);
      assert Holding(d.(server := s), o.id);
      CompleteSettles(d.(server := s), o);
    }
  }

  lemma TurnKeepsInv(d: Daemon, turn: Turn)
    requires Inv(d) && d.watchdog.value.flight.None?
    ensures Inv(d.(watchdog := Some(MainLoopTurn(d.watchdog.value, turn, d.foreground))))
  {
    hide Accounts;
    hide WatchdogOk;
    hide IsBuiltCommand;
    hide MainLoopTurn;
    hide Ids;
    TurnKeepsWatchdogOk(d.watchdog.value, turn, d.foreground);
  }

  lemma ClientsKeepInv(d: Daemon, clients: set<nat>, connections: nat)
    requires Inv(d)
    ensures Inv(d.(server := d.server.(clients := clients, connections := connections)))
  {
    hide Accounts;
    hide WatchdogOk;
    hide IsBuiltCommand;
    SameHistory(d.server, d.server.(clients := clients, connections := connections));
  }

  lemma DestroyKeepsInv(d: Daemon)
    requires Inv(d)
    ensures Inv(d.(server := Destroy(d.server)))
  {
    hide Accounts;
    hide WatchdogOk;
    hide IsBuiltCommand;
    DestroyAccounts(d.server);
  }

  lemma InvHasWatchdog(d: Daemon)
    requires Inv(d)
    ensures d.watchdog.Some? && WatchdogOk(d.watchdog.value)
  {
  }

  /** Every step of the protocol keeps the invariant. */
  lemma StepKeepsInv(d: Daemon, step: Step)
    requires Inv(d)
    ensures d.watchdog.Some? && Inv(Next(d, step))
  {
    hide Inv;
    hide ProcessCommand;
    hide MainLoopTurn;
    hide Destroy;
    hide Deliver;
    hide Post;
    InvHasWatchdog(d);
    var w := d.watchdog.value;
    match step
    case Message(client, command, parts, world) =>
      if d.server.alive && client in d.server.clients {
        MessageKeepsInv(d, client, command, parts, world);
      }
    case WatchdogTurn(turn) =>
      if w.flight.None? {
        TurnKeepsInv(d, turn);
      }
    case WatchdogCalls =>
      if w.flight.Some? {
        FlightLands(d);
      }
    case DeliverQueued => DeliverKeepsInv(d);
    case Connect => ClientsKeepInv(d, d.server.clients + {d.server.connections}, d.server.connections + 1);
    case Disconnect(client) => ClientsKeepInv(d, d.server.clients - {client}, d.server.connections);
    case DestroyServer => DestroyKeepsInv(d);
  }

  lemma FlightLands(d: Daemon)
    requires Inv(d) && d.watchdog.value.flight.Some?
    ensures var o := d.watchdog.value.flight.value;
            Inv(d.(watchdog := Some(d.watchdog.value.(flight := None)), server := Post(d.server, o)))
  {
    hide Accounts;
    hide IsBuiltCommand;
    hide Ids;
    var o := d.watchdog.value.flight.value;
    SameHistory(d.server, Post(d.server, o));
    IdsConcat(d.server.queue, [o]);
    IdsOfOne(o.id, o.success, o.detail);
    assert Ids([o]) == multiset{o.id};
  }

  lemma FreshConfig(command: string, elevate: bool)
    requires command != ""
    ensures SetProcessConfig(FRESH_WATCHDOG, command, elevate, None) ==
            (Watchdog(command, elevate, StartPending, None, 0, None), [])
  {
    assert Calls(None, None) == [];
  }

  lemma FreshInv(d: Daemon)
    requires d.server == EMPTY_SERVER && d.watchdog.Some? && d.configFile == d.persisted
    requires d.watchdog.value.slot.None? && d.watchdog.value.flight.None?
    requires WatchdogOk(d.watchdog.value)
    requires d.watchdog.value.command != "" ==> IsBuiltCommand(d.corePath, d.watchdog.value.command)
    ensures Inv(d)
  {
    hide IsBuiltCommand;
    hide WatchdogOk;
    assert Accounts(EMPTY_SERVER);
    assert multiset(EMPTY_SERVER.pending.Keys) == multiset{};
  }

  /** Start-up establishes it. */
  lemma StartUpEstablishesInv(persisted: string, foreground: bool, corePath: string, world: World)
    ensures Inv(StartUp(Initial(persisted, foreground, corePath), world))
  {
    hide Inv;
    hide IsBuiltCommand;
    hide ValidateConfigFile;
    hide ModeArg;
    hide CommandLine;
    hide SetProcessConfig;
    if persisted != "" && ValidateConfigFile(persisted, world) == "" && ModeArg(world.coreMode).Some? {
      AcceptedIsLocal(persisted, world);
      BuiltCommand(corePath, world.coreMode, persisted);
      FreshConfig(CommandLine(corePath, ModeArg(world.coreMode).value, persisted), world.elevate);
    }
    FreshInv(StartUp(Initial(persisted, foreground, corePath), world));
  }

  lemma {:induction false} RunKeepsInv(d: Daemon, steps: seq<Step>)
    requires Inv(d)
    ensures Inv(Run(d, steps))
    decreases |steps|
  {
    hide Next;
    if steps != [] {
      WatchdogStays(d, steps[0]);
      StepKeepsInv(d, steps[0]);
      RunKeepsInv(Next(d, steps[0]), steps[1..]);
    }
  }

  /** The daemon after some run from start-up. */
  function Reached(persisted: string, foreground: bool, corePath: string, world: World, steps: seq<Step>): (d: Daemon)
    ensures d.watchdog.Some?
  {
    StartUpEstablishesInv(persisted, foreground, corePath, world);
    Run(StartUp(Initial(persisted, foreground, corePath), world), steps)
  }

  /** While the server lives, a pending request is in exactly one place, and nothing else is in any. */
  lemma OnePlaceEach(d: Daemon, id: string)
    requires Inv(d) && d.server.alive
    ensures Places(d)[id] == if id in d.server.pending then 1 else 0
  {
    hide Ids;
    hide Accounts;
    hide IsBuiltCommand;
    hide WatchdogOk;
  }

  /** Over every run from start-up: each registration is in exactly one of pending, completed and
      abandoned, and completed at most once; while the server lives each pending request is in exactly
      one place; and the config path in memory is the persisted one. */
  lemma RequestsAreConserved(persisted: string, foreground: bool, corePath: string, world: World, steps: seq<Step>)
    ensures var d := Reached(persisted, foreground, corePath, world, steps);
            var s := d.server;
            && Inv(d) && d.configFile == d.persisted
            && (forall t: nat :: t < |s.registered| <==> HasPending(s, t) || HasCompleted(s, t) || t in s.abandoned)
            && (forall t: nat :: !(HasPending(s, t) && HasCompleted(s, t)))
            && (forall t: nat :: t in s.abandoned ==> !HasPending(s, t) && !HasCompleted(s, t))
            && (forall i, j :: 0 <= i < j < |s.completed| ==> s.completed[i].ticket != s.completed[j].ticket)
            && (s.alive ==> forall id :: Places(d)[id] == if id in s.pending then 1 else 0)
  {
    hide Run;
    hide StartUp;
    hide Places;
    hide HasPending;
    hide HasCompleted;
    hide WatchdogOk;
    hide IsBuiltCommand;
    hide Faithful;
    StartUpEstablishesInv(persisted, foreground, corePath, world);
    RunKeepsInv(StartUp(Initial(persisted, foreground, corePath), world), steps);
    var d := Reached(persisted, foreground, corePath, world, steps);
    if d.server.alive {
      forall id ensures Places(d)[id] == if id in d.server.pending then 1 else 0 {
        OnePlaceEach(d, id);
      }
    }
  }
}
