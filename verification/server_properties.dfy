/** Properties of the request handlers over the server state: the order
    of the gate's checks, that rejected requests change nothing, what a
    started run leaves behind, the check-then-acquire window, and three
    worked runs: one line then exit 0, a silent script past the deadline,
    and an unknown task. */
module ServerProperties {
  import opened Wrappers
  import opened Records
  import opened Runner
  import opened RunProperties
  import opened Server

  /** The credential is checked before anything else: a wrong one gets the
      same 401 whatever the scripts, the lock or the store hold. */
  lemma CredentialCheckedFirst(credentials: string, taskName: string, request: TaskRequest,
                               locked: bool, locked': bool, scripts: set<string>,
                               scripts': set<string>, store: Store, store': Store)
    requires credentials != Secret
    ensures RunTask(credentials, taskName, request, locked, scripts)
      == RunTask(credentials, taskName, request, locked', scripts')
      == Rejected(HttpError(401, "Invalid authentication credentials", true))
    ensures GetTaskStatus(credentials, taskName, store, scripts)
      == GetTaskStatus(credentials, taskName, store', scripts')
      == Failure(HttpError(401, "Invalid authentication credentials", true))
  {
  }

  /** Resolution comes before the lock check: an unknown task gets 422
      whether or not a run holds the lock. */
  lemma ResolutionBeforeLock(taskName: string, request: TaskRequest, locked: bool,
                             locked': bool, scripts: set<string>)
    requires ShellFile(taskName) !in scripts
    ensures RunTask(Secret, taskName, request, locked, scripts)
      == RunTask(Secret, taskName, request, locked', scripts)
      == Rejected(HttpError(422, "SHELL FILE NOT FOUND ON SERVER: " + ShellFile(taskName), false))
  {
  }

  /** A trigger is refused exactly when the credential is wrong, the task
      does not resolve, or the lock is held, and a refused trigger leaves
      the lock and the store as they were. */
  lemma RefusedTriggerChangesNothing(s: ServerState, credentials: string, taskName: string,
                                     request: TaskRequest, env: Env)
    ensures var step := Trigger(s, credentials, taskName, request, env);
      && (step.response.Refused? <==>
            credentials != Secret || ShellFile(taskName) !in s.scripts || s.locked)
      && (step.response.Refused? ==> step.state == s)
  {
  }

  /** An accepted trigger always gets past the spawn: the run writes only
      its own task's key; while it polls the lock is held and the task
      shows RUNNING with the new pid; once it completes the lock is free
      and the task shows the terminal record. */
  lemma AcceptedTrigger(s: ServerState, taskName: string, request: TaskRequest, env: Env)
    requires ShellFile(taskName) in s.scripts && !s.locked
    ensures var step := Trigger(s, Secret, taskName, request, env);
      && step.response.Stream?
      && (step.response.outcome.InProgress? || step.response.outcome.Completed?)
      && step.state.scripts == s.scripts
      && (forall k :: k != taskName ==>
            (k in step.state.store <==> k in s.store)
            && (k in s.store ==> step.state.store[k] == s.store[k]))
      && (step.response.outcome.InProgress? <==> FirstStop(env.trace, Deadline(env)).None?)
      && taskName in step.state.store
      && (step.response.outcome.InProgress? ==>
            step.state.locked && step.state.store[taskName] == RunRecord(Some(env.pid), None, Running))
      && (step.response.outcome.Completed? ==>
            !step.state.locked && step.state.store[taskName] == step.response.outcome.record)
  {
    var reply := RunTask(Secret, taskName, request, s.locked, s.scripts);
    RunLockDiscipline(reply.runner, reply.args, s.locked, env);
    RunStore(reply.runner, reply.args, s.locked, env, s.store);
  }

  /** A task that has never run reports the default record. */
  lemma StatusOfUntriggered(s: ServerState, taskName: string)
    requires ShellFile(taskName) in s.scripts && taskName !in s.store
    ensures Status(s, Secret, taskName) == Success(RunRecord(None, None, Stopped))
  {
  }

  /** After a completed run the status endpoint reports FINISHED or
      TIMEOUT with the run's pid, and another task can be triggered at
      once. */
  lemma AfterCompletedRun(s: ServerState, taskName: string, request: TaskRequest, env: Env,
                          other: string, request': TaskRequest)
    requires ShellFile(taskName) in s.scripts && !s.locked
    requires FirstStop(env.trace, Deadline(env)).Some?
    requires ShellFile(other) in s.scripts
    ensures var step := Trigger(s, Secret, taskName, request, env);
      && step.response.Stream? && step.response.outcome.Completed?
      && Status(step.state, Secret, taskName) == Success(step.response.outcome.record)
      && step.response.outcome.record.pid == Some(env.pid)
      && step.response.outcome.record.status in {Finished, Timeout}
      && RunTask(Secret, other, request', step.state.locked, step.state.scripts).Streaming?
  {
    var reply := RunTask(Secret, taskName, request, s.locked, s.scripts);
    AcceptedTrigger(s, taskName, request, env);
    RunTerminalRecord(reply.runner, reply.args, env);
  }

  /** While a run is polling, a second trigger for any task is refused as
      busy and changes nothing, and the status endpoint reports RUNNING. */
  lemma BusyWhileRunning(s: ServerState, taskName: string, request: TaskRequest, env: Env,
                         other: string, request': TaskRequest, env': Env)
    requires ShellFile(taskName) in s.scripts && !s.locked
    requires FirstStop(env.trace, Deadline(env)).None?
    requires ShellFile(other) in s.scripts
    ensures var first := Trigger(s, Secret, taskName, request, env);
      var second := Trigger(first.state, Secret, other, request', env');
      && second == Step(Refused(HttpError(429, "Command already running", false)), first.state)
      && Status(first.state, Secret, taskName) == Success(RunRecord(Some(env.pid), None, Running))
  {
    AcceptedTrigger(s, taskName, request, env);
  }

  /** The check-then-acquire window: two triggers that pass the gate before
      either stream starts are both accepted; once the first run holds the
      lock, the second does not fail fast with 429 but waits on the lock,
      streaming nothing and changing nothing. */
  lemma CheckThenAcquireRace(s: ServerState, a: string, requestA: TaskRequest, envA: Env,
                             b: string, requestB: TaskRequest, envB: Env)
    requires ShellFile(a) in s.scripts && ShellFile(b) in s.scripts && !s.locked
    requires FirstStop(envA.trace, Deadline(envA)).None?
    ensures var replyA := RunTask(Secret, a, requestA, s.locked, s.scripts);
      var replyB := RunTask(Secret, b, requestB, s.locked, s.scripts);
      var first := Start(s, replyA, envA);
      var second := Start(first.state, replyB, envB);
      && replyA.Streaming? && replyB.Streaming?
      && first.response.outcome == InProgress
      && second == Step(Stream([], AwaitingLock), first.state)
  {
    AcceptedTrigger(s, a, requestA, envA);
  }

  // ---------------------------------------------------------------------
  // Scenarios
  // ---------------------------------------------------------------------

  /** An accepted trigger is the run of the resolved runner, with its
      effects replayed onto the server state. */
  lemma TriggerRuns(s: ServerState, taskName: string, request: TaskRequest, env: Env)
    requires ShellFile(taskName) in s.scripts && !s.locked
    ensures var res := Run(CommandRunner(taskName, ShellFile(taskName), true, true), request.args, false, env);
      Trigger(s, Secret, taskName, request, env)
        == Step(Stream(ChunksOf(res.events), res.outcome),
                ServerState(LockAfter(false, res.events), StoreAfter(s.store, res.events), s.scripts))
  {
  }

  lemma OneLineThenExit(line: string, t0: int)
    requires line != ""
    ensures var trace := [Observation(line, None, t0), Observation("", Some(0), t0 + 1)];
      && FirstStop(trace, t0 + TimeoutSeconds) == Some(1)
      && NonEmptyLines(trace[..2]) == [line]
  {
    var trace := [Observation(line, None, t0), Observation("", Some(0), t0 + 1)];
    assert trace[..2] == trace;
    assert trace[1..][1..] == [];
    assert NonEmptyLines(trace[1..]) == [];
  }

  lemma ClosingLineZero()
    ensures ClosingLine(Some(0)) == "\n**********\n\nEXITED (0)"
  {
  }

  lemma OneLineChunks(r: CommandRunner, args: seq<string>, line: string, pid: int, t0: int,
                       rcAfterKill: Option<int>)
    requires r.lockAttached && r.storeAttached
    requires line != ""
    ensures var env := Env(pid, t0, [Observation(line, None, t0), Observation("", Some(0), t0 + 1)], rcAfterKill);
      var res := Run(r, args, false, env);
      && res.outcome == Completed(RunRecord(Some(pid), Some(0), Finished))
      && ChunksOf(res.events) == [Banner, RunningLine(Command(r, args)), line, ClosingLine(Some(0))]
  {
    var env := Env(pid, t0, [Observation(line, None, t0), Observation("", Some(0), t0 + 1)], rcAfterKill);
    var res := Run(r, args, false, env);
    OneLineThenExit(line, t0);
    assert FirstStop(env.trace, Deadline(env)) == Some(1);
    RunTerminalRecord(r, args, env);
    assert res.outcome == Completed(RunRecord(Some(pid), Some(0), Finished));
    RunChunksCompleted(r, args, env);
    var head := [Banner, RunningLine(Command(r, args))];
    var marker: seq<string> := if env.trace[1].returncode.None? then [TimeoutMarker] else [];
    assert marker == [];
    assert ChunksOf(res.events) == head + [line] + marker + [ClosingLine(Some(0))];
    assert head + [line] + marker + [ClosingLine(Some(0))]
      == [Banner, RunningLine(Command(r, args)), line, ClosingLine(Some(0))];
  }

  lemma OneLineRun(r: CommandRunner, args: seq<string>, line: string, pid: int, t0: int,
                    rcAfterKill: Option<int>, store: Store)
    requires r.lockAttached && r.storeAttached
    requires line != ""
    ensures var env := Env(pid, t0, [Observation(line, None, t0), Observation("", Some(0), t0 + 1)], rcAfterKill);
      var res := Run(r, args, false, env);
      && res.outcome == Completed(RunRecord(Some(pid), Some(0), Finished))
      && ChunksOf(res.events) == [Banner, RunningLine(Command(r, args)), line, ClosingLine(Some(0))]
      && !LockAfter(false, res.events)
      && StoreAfter(store, res.events) == store[r.taskName := RunRecord(Some(pid), Some(0), Finished)]
  {
    var env := Env(pid, t0, [Observation(line, None, t0), Observation("", Some(0), t0 + 1)], rcAfterKill);
    OneLineChunks(r, args, line, pid, t0, rcAfterKill);
    RunLockDiscipline(r, args, false, env);
    RunStore(r, args, false, env, store);
  }

  /** A script that prints one line and exits 0 within a second: the
      stream is the banner, the command line, the line, and the closing
      chunk with code 0; the status is then FINISHED with exit code 0 and
      the lock is free. */
  lemma OneLineExitScenario(s: ServerState, taskName: string, args: seq<string>, line: string,
                       pid: int, t0: int, rcAfterKill: Option<int>)
    requires ShellFile(taskName) in s.scripts && !s.locked
    requires line != ""
    ensures var env := Env(pid, t0, [Observation(line, None, t0), Observation("", Some(0), t0 + 1)], rcAfterKill);
      var step := Trigger(s, Secret, taskName, TaskRequest(args), env);
      && step.response == Stream(
           [Banner, RunningLine(["bash", ShellFile(taskName)] + args), line, ClosingLine(Some(0))],
           Completed(RunRecord(Some(pid), Some(0), Finished)))
      && step.response.chunks[3] == "\n**********\n\nEXITED (0)"
      && Status(step.state, Secret, taskName) == Success(RunRecord(Some(pid), Some(0), Finished))
      && !step.state.locked
  {
    var env := Env(pid, t0, [Observation(line, None, t0), Observation("", Some(0), t0 + 1)], rcAfterKill);
    var runner := CommandRunner(taskName, ShellFile(taskName), true, true);
    TriggerRuns(s, taskName, TaskRequest(args), env);
    OneLineRun(runner, args, line, pid, t0, rcAfterKill, s.store);
    ClosingLineZero();
  }

  lemma SilentTimeoutChunks(r: CommandRunner, pid: int, t0: int, wake: int, rcAfterKill: Option<int>)
    requires r.lockAttached && r.storeAttached
    requires wake > t0 + 12
    ensures var env := Env(pid, t0, [Observation("", None, wake)], rcAfterKill);
      var res := Run(r, [], false, env);
      && res.outcome == Completed(RunRecord(Some(pid), rcAfterKill, Timeout))
      && ChunksOf(res.events) == [Banner, RunningLine(Command(r, [])), TimeoutMarker, ClosingLine(rcAfterKill)]
  {
    var trace := [Observation("", None, wake)];
    var env := Env(pid, t0, trace, rcAfterKill);
    assert FirstStop(trace, Deadline(env)) == Some(0);
    assert trace[..1] == trace;
    assert NonEmptyLines(trace[1..]) == [];
    assert NonEmptyLines(trace) == [];
    RunTerminalRecord(r, [], env);
    RunChunksCompleted(r, [], env);
    var head := [Banner, RunningLine(Command(r, []))];
    assert head + [] + [TimeoutMarker] + [ClosingLine(rcAfterKill)]
      == [Banner, RunningLine(Command(r, [])), TimeoutMarker, ClosingLine(rcAfterKill)];
  }

  lemma SilentTimeoutRun(r: CommandRunner, pid: int, t0: int, wake: int,
                          rcAfterKill: Option<int>, store: Store)
    requires r.lockAttached && r.storeAttached
    requires wake > t0 + 12
    ensures var env := Env(pid, t0, [Observation("", None, wake)], rcAfterKill);
      var res := Run(r, [], false, env);
      && res.outcome == Completed(RunRecord(Some(pid), rcAfterKill, Timeout))
      && ChunksOf(res.events) == [Banner, RunningLine(Command(r, [])), TimeoutMarker, ClosingLine(rcAfterKill)]
      && !LockAfter(false, res.events)
      && StoreAfter(store, res.events) == store[r.taskName := RunRecord(Some(pid), rcAfterKill, Timeout)]
  {
    var env := Env(pid, t0, [Observation("", None, wake)], rcAfterKill);
    SilentTimeoutChunks(r, pid, t0, wake, rcAfterKill);
    RunLockDiscipline(r, [], false, env);
    RunStore(r, [], false, env, store);
  }

  /** A script that sleeps and prints nothing: when
      the read loop wakes past spawn time + 12 with no returncode, the
      process is killed, the timeout chunk is streamed, and the status is
      TIMEOUT with whatever exit code the process reported after the kill. */
  lemma SilentScriptScenario(s: ServerState, taskName: string, pid: int, t0: int, wake: int,
                     rcAfterKill: Option<int>)
    requires ShellFile(taskName) in s.scripts && !s.locked
    requires wake > t0 + 12
    ensures var env := Env(pid, t0, [Observation("", None, wake)], rcAfterKill);
      var step := Trigger(s, Secret, taskName, DefaultRequest, env);
      && step.response == Stream(
           [Banner, RunningLine(["bash", ShellFile(taskName)]), "TIMEOUT REACHED", ClosingLine(rcAfterKill)],
           Completed(RunRecord(Some(pid), rcAfterKill, Timeout)))
      && Status(step.state, Secret, taskName) == Success(RunRecord(Some(pid), rcAfterKill, Timeout))
      && !step.state.locked
  {
    var env := Env(pid, t0, [Observation("", None, wake)], rcAfterKill);
    var runner := CommandRunner(taskName, ShellFile(taskName), true, true);
    TriggerRuns(s, taskName, DefaultRequest, env);
    SilentTimeoutRun(runner, pid, t0, wake, rcAfterKill, s.store);
    assert Command(runner, []) == ["bash", ShellFile(taskName)];
  }

  /** The deadline is only tested when the loop wakes: a silent script that
      has exited by the time `readline()` returns at end of output is
      reported FINISHED, however long after the deadline that is. */
  lemma SilentOverrunReportedFinished(s: ServerState, taskName: string, pid: int, t0: int,
                                      wake: int, rcAfterKill: Option<int>)
    requires ShellFile(taskName) in s.scripts && !s.locked
    requires wake > t0 + 12
    ensures var env := Env(pid, t0, [Observation("", Some(0), wake)], rcAfterKill);
      var step := Trigger(s, Secret, taskName, DefaultRequest, env);
      Status(step.state, Secret, taskName) == Success(RunRecord(Some(pid), Some(0), Finished))
  {
    var trace := [Observation("", Some(0), wake)];
    var env := Env(pid, t0, trace, rcAfterKill);
    var runner := CommandRunner(taskName, ShellFile(taskName), true, true);
    TriggerRuns(s, taskName, DefaultRequest, env);
    ExitBeatsTimeout(runner, [], env, 0);
    RunStore(runner, [], false, env, s.store);
  }

  /** Triggering an unknown task `backup`: 422 with the resolver's message,
      no lock taken, store unchanged. */
  lemma UnknownTaskScenario(s: ServerState, env: Env, request: TaskRequest)
    requires "./tasks/backup.sh" !in s.scripts
    ensures Trigger(s, Secret, "backup", request, env)
      == Step(Refused(HttpError(422, "SHELL FILE NOT FOUND ON SERVER: ./tasks/backup.sh", false)), s)
  {
    assert ShellFile("backup") == "./tasks/backup.sh";
    assert NotFoundMessage("backup") == "SHELL FILE NOT FOUND ON SERVER: ./tasks/backup.sh";
  }
}
