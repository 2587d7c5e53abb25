/** What the watchdog does in a turn of its main loop and on a new configuration, case by case. */
module DaemonWatchdog {
  import opened Text
  import opened DaemonProtocol

  // ----- the main loop

  function PowerOfTwo(k: nat): nat {
    if k == 0 then 1 else 2 * PowerOfTwo(k - 1)
  }

  lemma {:induction false} PowersGrow(k: nat)
    ensures k >= 5 ==> PowerOfTwo(k) >= 32
    decreases k
  {
    if k > 5 {
      PowersGrow(k - 1);
    }
  }

  /** The first failed start is tried again at once; from the second on the wait is one second, doubled
      with each failure up to thirty. */
  lemma RetriesBackOff(failures: nat)
    ensures failures < 2 ==> RetryDelay(failures) == 0.0
    ensures failures >= 2 ==>
              var wait := PowerOfTwo(failures - 2);
              RetryDelay(failures) == (if wait < 30 then wait else 30) as real
  {
    if failures >= 2 {
      PowersGrow(failures - 2);
    }
  }

  /** A turn that starts: it runs its command unless there is none or starting fails, it tells whoever
      waits, and only a second failure in a row waits before the next try. */
  lemma StartTurn(w: Watchdog, t: Turn, foreground: bool)
    requires w.process == StartPending
    ensures var v, started := MainLoopTurn(w, t, foreground), w.command != "" && t.startError == None;
            var detail := if started then "" else if w.command == "" then "cannot start process, command is empty"
                          else t.startError.value;
            && v.command == w.command && v.elevate == w.elevate && v.slot == None
            && v.failures == (if started then 0 else w.failures + 1)
            && (v.process == Running <==> started) && (!started ==> (v.process == StartScheduled <==> v.failures >= 2))
            && (v.process == StartPending <==> !started && v.failures == 1)
            && (w.slot.Some? ==> v.flight == Some(Outcome(w.slot.value, started, detail)))
            && (w.slot.None? ==> v.flight == None)
  {
  }

  /** The other turns only move the process along: a changed session or an exit leads to another start, a
      stop to a start if there is a command, and a scheduled start waits until it is due. */
  lemma OtherTurns(w: Watchdog, t: Turn, foreground: bool)
    requires w.process != StartPending
    ensures var v := MainLoopTurn(w, t, foreground);
            && v == w.(process := v.process)
            && (w.process == Running ==>
                  v.process == if (t.sessionChanged && w.command != "" && !foreground) || !t.up then StartPending
                               else Running)
            && (w.process == StopPending ==> v.process == if w.command == "" then Idle else StartPending)
            && (w.process == StartScheduled ==> v.process == if t.due then StartPending else StartScheduled)
            && (w.process == Idle ==> v.process == Idle)
  {
  }

  /** A running command follows its user's session: it is running again two turns after the session
      changed, whatever was running in the old one. */
  lemma SessionChangeRestarts(w: Watchdog, t: Turn, next: Turn)
    requires w.process == Running && w.command != "" && t.sessionChanged && next.startError.None?
    ensures var v := MainLoopTurn(w, t, false);
            && v.process == StartPending
            && MainLoopTurn(v, next, false) ==
               w.(failures := 0, slot := None,
                  flight := if w.slot.Some? then Some(Outcome(w.slot.value, true, "")) else None)
  {
    OtherTurns(w, t, false);
    StartTurn(w.(process := StartPending), next, false);
  }

  // ----- a new configuration

  /** The request that waited is told that it was superseded, before anything else; the new one is told at
      once that its command runs, or waits for a start, or is forgotten with the command it would stop. */
  lemma NewConfiguration(w: Watchdog, command: string, elevate: bool, callback: Option<string>)
    ensures var (v, called) := SetProcessConfig(w, command, elevate, callback);
            var same := w.command == command && w.elevate == elevate;
            var runs := same && command != "" && w.process == Running;
            && v.command == command && v.elevate == elevate && v.failures == w.failures && v.flight == w.flight
            && |called| == (if w.slot.Some? then 1 else 0) + (if runs && callback.Some? then 1 else 0)
            && (w.slot.Some? ==> called[0] == Outcome(w.slot.value, false, "process start request was superseded"))
            && (runs && callback.Some? ==> called[|called| - 1] == Outcome(callback.value, true, ""))
            && v.slot == (if runs || (!same && command == "") then None else callback)
            && v.process ==
               if !same && (command == "" || w.process in {Running, StopPending}) then StopPending
               else if (same && (command == "" || w.process != Idle)) then w.process
               else StartPending
  {
  }

  // ----- messages that need no answer later

  /** Log level, log path and clearing the settings are answered at once, and change nothing but the config
      path; what the server does not know is left to the others. */
  lemma OtherMessages(d: Daemon, client: nat, command: string, parts: seq<string>, world: World)
    requires d.watchdog.Some? && d.server.alive && client in d.server.clients
    requires command !in {"configFile", "start", "stop"}
    ensures var e := Next(d, Message(client, command, parts, world));
            && e.watchdog == d.watchdog && e.server == d.server.(written := e.server.written)
            && e.configFile == (if command == "clearSettings" then "" else d.configFile)
            && e.persisted == (if command == "clearSettings" then "" else d.persisted)
            && e.server.written == d.server.written +
                 (if command == "logPath" then [(client, LogPath)]
                  else if command == "clearSettings" then [(client, Ack)]
                  else if command == "logLevel" then
                    [(client, if |parts| >= 2 && parts[1] != "" then Ack else Error)]
                  else [])
  {
  }
}
