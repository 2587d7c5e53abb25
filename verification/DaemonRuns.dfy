/** Runs of the daemon, step by step. */
module DaemonRuns {
  import opened DaemonProtocol
  import opened DaemonLaws

  lemma {:induction false} RunConcat(d: Daemon, a: seq<Step>, b: seq<Step>)
    requires d.watchdog.Some?
    ensures Run(d, a + b) == Run(Run(d, a), b)
    decreases |a|
  {
    hide Next;
    if a == [] {
      assert a + b == b;
    } else {
      assert (a + b)[0] == a[0] && (a + b)[1..] == a[1..] + b;
      WatchdogStays(d, a[0]);
      RunConcat(Next(d, a[0]), a[1..], b);
    }
  }

  lemma RunOne(d: Daemon, step: Step, rest: seq<Step>)
    requires d.watchdog.Some?
    ensures Next(d, step).watchdog.Some? && Run(d, [step] + rest) == Run(Next(d, step), rest)
    ensures Run(d, []) == d
  {
    hide Next;
    WatchdogStays(d, step);
    assert ([step] + rest)[0] == step && ([step] + rest)[1..] == rest;
  }

  /** Once the server is destroyed nothing is completed, and callbacks still in the watchdog go nowhere. */
  lemma DeadServersAnswerNothing(d: Daemon, step: Step)
    requires Inv(d) && !d.server.alive
    ensures var e := Next(d, step);
            !e.server.alive && e.server.completed == d.server.completed && e.server.written == d.server.written
            && e.server.queue == []
  {
    hide Accounts;
    hide IsBuiltCommand;
    hide MainLoopTurn;
    hide ProcessCommand;
  }
}
