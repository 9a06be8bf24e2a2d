/** `CommandRunner`: resolves a task name to its script, builds the command
    line, and runs one execution as a fixed sequence of effects.

    The run is a pure function. The OS process is replaced by an
    environment: the pid the spawn returns, the clock reading taken right
    after the spawn, and a finite trace of what each loop iteration
    observes (the line `readline()` returned, `process.returncode`, and
    the clock). The effects are returned as an ordered event log; the
    streamed chunks, the status store and the lock are replays of that
    log, so both the final state and the order of effects can be stated. */
module Runner {
  import opened Wrappers
  import opened Records
  import PyText

  /** Seconds from spawn after which a still-running process is killed. */
  const TimeoutSeconds: int := 12

  const Banner: string := "\n**********\n"
  const TimeoutMarker: string := "TIMEOUT REACHED"
  const NotFoundPrefix: string := "SHELL FILE NOT FOUND ON SERVER: "
  const ClosingPrefix: string := "\n**********\n\nEXITED ("

  // ---------------------------------------------------------------------
  // Resolution and command line
  // ---------------------------------------------------------------------

  /** The script a task name stands for. */
  function ShellFile(taskName: string): string {
    "./tasks/" + taskName + ".sh"
  }

  /** The task a script path belongs to, if it has the tasks layout. */
  function TaskOfShellFile(path: string): Option<string> {
    if |path| >= 11 && path[..8] == "./tasks/" && path[|path| - 3..] == ".sh"
    then Some(path[8..|path| - 3])
    else None
  }

  /** Every task name has its own script: the path gives the name back, so
      two different names never share a script. */
  lemma ShellFileRoundTrip(taskName: string, other: string)
    ensures TaskOfShellFile(ShellFile(taskName)) == Some(taskName)
    ensures ShellFile(taskName) == ShellFile(other) <==> taskName == other
  {
    var p := ShellFile(taskName);
    assert p[..8] == "./tasks/";
    assert p[|p| - 3..] == ".sh";
    assert p[8..|p| - 3] == taskName;
    if ShellFile(taskName) == ShellFile(other) {
      var p' := ShellFile(other);
      assert p'[8..|p'| - 3] == other;
    }
  }

  /** A runner: the task, its script, and whether `for_lock` / `for_store`
      attached the shared lock and status store. */
  datatype CommandRunner = CommandRunner(
    taskName: string,
    shellFile: string,
    lockAttached: bool,
    storeAttached: bool)

  function NotFoundMessage(taskName: string): string {
    NotFoundPrefix + ShellFile(taskName)
  }

  /** The constructor: fails, and no runner exists, unless the task's
      script is among the paths that exist right now. */
  function New(taskName: string, scripts: set<string>): (r: Result<CommandRunner, string>)
    ensures r.Success? <==> ShellFile(taskName) in scripts
    ensures r.Success? ==>
      && r.value.taskName == taskName
      && r.value.shellFile in scripts
      && TaskOfShellFile(r.value.shellFile) == Some(taskName)
      && !r.value.lockAttached && !r.value.storeAttached
    ensures r.Failure? ==> r.error == NotFoundMessage(taskName)
  {
    ShellFileRoundTrip(taskName, taskName);
    if ShellFile(taskName) in scripts
    then Success(CommandRunner(taskName, ShellFile(taskName), false, false))
    else Failure(NotFoundMessage(taskName))
  }

  /** `for_lock`: attaches the shared lock and returns the same runner. */
  function ForLock(r: CommandRunner): (r': CommandRunner)
    ensures r'.lockAttached
    ensures r'.taskName == r.taskName && r'.shellFile == r.shellFile
    ensures r'.storeAttached == r.storeAttached
  {
    r.(lockAttached := true)
  }

  /** `for_store`: attaches the shared status store and returns the same
      runner. */
  function ForStore(r: CommandRunner): (r': CommandRunner)
    ensures r'.storeAttached
    ensures r'.taskName == r.taskName && r'.shellFile == r.shellFile
    ensures r'.lockAttached == r.lockAttached
  {
    r.(storeAttached := true)
  }

  /** Attaching is idempotent and the two attachments commute, so the
      chained calls give a runner with both, whatever the order. */
  lemma AttachOrder(r: CommandRunner)
    ensures ForLock(ForLock(r)) == ForLock(r) && ForStore(ForStore(r)) == ForStore(r)
    ensures ForStore(ForLock(r)) == ForLock(ForStore(r))
    ensures ForStore(ForLock(r)).lockAttached && ForStore(ForLock(r)).storeAttached
  {
  }

  /** `["bash", shell_file]` extended by the caller's arguments. */
  function Command(r: CommandRunner, args: seq<string>): (cmd: seq<string>)
    ensures |cmd| == |args| + 2
    ensures cmd[0] == "bash" && cmd[1] == r.shellFile
    ensures cmd[2..] == args
  {
    ["bash", r.shellFile] + args
  }

  /** The second chunk of a run: the command as Python prints a list. */
  function RunningLine(cmd: seq<string>): string {
    "RUNNING: " + PyText.ListRepr(cmd)
  }

  /** The last chunk of a completed run, with the exit code as Python
      prints an `Optional[int]`. */
  function ClosingLine(rc: Option<int>): string {
    ClosingPrefix + PyText.OptIntStr(rc) + ")"
  }

  /** The RUNNING chunk shows the whole command: reading the list back
      gives `bash`, the script, and every argument unchanged and in order. */
  lemma RunningLineShowsCommand(r: CommandRunner, args: seq<string>)
    ensures var line := RunningLine(Command(r, args));
      && line[..9] == "RUNNING: "
      && PyText.ParseList(line[9..]) == Some(["bash", r.shellFile] + args)
  {
    var cmd := Command(r, args);
    assert RunningLine(cmd)[9..] == PyText.ListRepr(cmd);
    PyText.ListReprRoundTrip(cmd);
  }

  /** The closing chunk carries the exit code: after the fixed prefix, the
      text up to the closing parenthesis reads back as the same optional
      code, `None` included. */
  lemma ClosingLineShowsExitCode(rc: Option<int>)
    ensures var line := ClosingLine(rc);
      var n := |line|;
      && n > |ClosingPrefix| && line[..|ClosingPrefix|] == ClosingPrefix && line[n - 1] == ')'
      && PyText.ParseOptInt(line[|ClosingPrefix|..n - 1]) == Some(rc)
  {
    var line := ClosingLine(rc);
    assert line[|ClosingPrefix|..|line| - 1] == PyText.OptIntStr(rc);
    PyText.OptIntStrRoundTrip(rc);
  }

  // ---------------------------------------------------------------------
  // Effects and their replay
  // ---------------------------------------------------------------------

  /** One effect of a run, in the order it happens. */
  datatype Event =
    | Acquire
    | Emit(chunk: string)
    | Spawn(pid: int)
    | Publish(key: string, record: RunRecord)
    | Kill
    | Release

  function LockStep(locked: bool, e: Event): bool {
    match e
    case Acquire => true
    case Release => false
    case _ => locked
  }

  function StoreStep(store: Store, e: Event): Store {
    if e.Publish? then store[e.key := e.record] else store
  }

  /** Whether the lock is held after the events. */
  function LockAfter(locked: bool, events: seq<Event>): bool
    decreases |events|
  {
    if |events| == 0 then locked else LockAfter(LockStep(locked, events[0]), events[1..])
  }

  /** The status store after the events. */
  function StoreAfter(store: Store, events: seq<Event>): Store
    decreases |events|
  {
    if |events| == 0 then store else StoreAfter(StoreStep(store, events[0]), events[1..])
  }

  /** The chunks a reader of the stream receives. */
  function ChunksOf(events: seq<Event>): seq<string>
    decreases |events|
  {
    if |events| == 0 then []
    else (if events[0].Emit? then [events[0].chunk] else []) + ChunksOf(events[1..])
  }

  /** Replaying a log in two parts is replaying it whole. */
  lemma ReplayAppend(locked: bool, store: Store, a: seq<Event>, b: seq<Event>)
    ensures LockAfter(locked, a + b) == LockAfter(LockAfter(locked, a), b)
    ensures StoreAfter(store, a + b) == StoreAfter(StoreAfter(store, a), b)
    ensures ChunksOf(a + b) == ChunksOf(a) + ChunksOf(b)
  {
    LockAppend(locked, a, b);
    StoreAppend(store, a, b);
    ChunksAppend(a, b);
  }

  lemma {:induction false} LockAppend(locked: bool, a: seq<Event>, b: seq<Event>)
    ensures LockAfter(locked, a + b) == LockAfter(LockAfter(locked, a), b)
    decreases |a|
  {
    if |a| == 0 {
      assert a + b == b;
    } else {
      assert (a + b)[1..] == a[1..] + b;
      LockAppend(LockStep(locked, a[0]), a[1..], b);
    }
  }

  lemma {:induction false} StoreAppend(store: Store, a: seq<Event>, b: seq<Event>)
    ensures StoreAfter(store, a + b) == StoreAfter(StoreAfter(store, a), b)
    decreases |a|
  {
    if |a| == 0 {
      assert a + b == b;
    } else {
      assert (a + b)[1..] == a[1..] + b;
      StoreAppend(StoreStep(store, a[0]), a[1..], b);
    }
  }

  lemma {:induction false} ChunksAppend(a: seq<Event>, b: seq<Event>)
    ensures ChunksOf(a + b) == ChunksOf(a) + ChunksOf(b)
    decreases |a|
  {
    if |a| == 0 {
      assert a + b == b;
    } else {
      assert (a + b)[1..] == a[1..] + b;
      ChunksAppend(a[1..], b);
    }
  }

  /** Events that neither take nor release the lock nor write the store. */
  predicate Quiet(events: seq<Event>) {
    forall i :: 0 <= i < |events| ==> events[i].Emit? || events[i].Kill?
  }

  lemma {:induction false} QuietReplay(locked: bool, store: Store, events: seq<Event>)
    requires Quiet(events)
    ensures LockAfter(locked, events) == locked
    ensures StoreAfter(store, events) == store
    decreases |events|
  {
    if |events| > 0 {
      QuietReplay(locked, store, events[1..]);
    }
  }

  /** Every store write in the log happens while the lock is held. */
  predicate PublishesUnderLock(locked: bool, events: seq<Event>) {
    forall i :: 0 <= i < |events| && events[i].Publish? ==> LockAfter(locked, events[..i])
  }

  lemma PublishesUnderLockAppend(locked: bool, a: seq<Event>, b: seq<Event>)
    requires PublishesUnderLock(locked, a)
    requires PublishesUnderLock(LockAfter(locked, a), b)
    ensures PublishesUnderLock(locked, a + b)
  {
    forall i | 0 <= i < |a + b| && (a + b)[i].Publish?
      ensures LockAfter(locked, (a + b)[..i])
    {
      if i < |a| {
        assert (a + b)[..i] == a[..i];
      } else {
        assert (a + b)[..i] == a + b[..i - |a|];
        assert b[i - |a|] == (a + b)[i];
        ReplayAppend(locked, map[], a, b[..i - |a|]);
      }
    }
  }

  // ---------------------------------------------------------------------
  // The read loop
  // ---------------------------------------------------------------------

  /** What one loop iteration sees: the line `readline()` returned (empty
      at end of output), `process.returncode` when tested, and the clock
      when the deadline is tested. */
  datatype Observation = Observation(line: string, returncode: Option<int>, now: int)

  /** The loop's exit test: the process has exited, or the clock is
      strictly past the deadline. */
  predicate StopsLoop(o: Observation, deadline: int) {
    o.returncode.Some? || o.now > deadline
  }

  /** The iteration at which the loop leaves, if the trace reaches one. */
  function FirstStop(trace: seq<Observation>, deadline: int): (k: Option<nat>)
    ensures k.Some? ==> k.value < |trace| && StopsLoop(trace[k.value], deadline)
    ensures k.Some? ==> forall j :: 0 <= j < k.value ==> !StopsLoop(trace[j], deadline)
    ensures k.None? ==> forall j :: 0 <= j < |trace| ==> !StopsLoop(trace[j], deadline)
    decreases |trace|
  {
    if |trace| == 0 then None
    else if StopsLoop(trace[0], deadline) then Some(0)
    else
      match FirstStop(trace[1..], deadline)
      case None => None
      case Some(k) => Some(k + 1)
  }

  /** The non-empty lines of a trace, in order. */
  function NonEmptyLines(trace: seq<Observation>): (lines: seq<string>)
    ensures |lines| <= |trace|
    ensures forall i :: 0 <= i < |lines| ==> lines[i] != ""
    ensures (forall i :: 0 <= i < |trace| ==> trace[i].line == "") ==> lines == []
    decreases |trace|
  {
    if |trace| == 0 then []
    else (if trace[0].line != "" then [trace[0].line] else []) + NonEmptyLines(trace[1..])
  }

  /** Completeness: every non-empty read is among the selected lines. */
  lemma {:induction false} NonEmptyLinesComplete(trace: seq<Observation>)
    ensures forall i :: 0 <= i < |trace| && trace[i].line != "" ==> trace[i].line in NonEmptyLines(trace)
    decreases |trace|
  {
    if |trace| > 0 {
      NonEmptyLinesComplete(trace[1..]);
      forall i | 0 <= i < |trace| && trace[i].line != ""
        ensures trace[i].line in NonEmptyLines(trace)
      {
        if i > 0 {
          assert trace[1..][i - 1] == trace[i];
        }
      }
    }
  }

  /** Order: the lines of a trace split in two are the lines of the first
      part followed by those of the second, and one observation contributes
      its line exactly when the line is non-empty. */
  lemma {:induction false} NonEmptyLinesAppend(a: seq<Observation>, b: seq<Observation>)
    ensures NonEmptyLines(a + b) == NonEmptyLines(a) + NonEmptyLines(b)
    decreases |a|
  {
    if |a| == 0 {
      assert a + b == b;
    } else {
      assert (a + b)[0] == a[0];
      assert (a + b)[1..] == a[1..] + b;
      NonEmptyLinesAppend(a[1..], b);
    }
  }

  lemma NonEmptyLinesOne(o: Observation)
    ensures NonEmptyLines([o]) == (if o.line != "" then [o.line] else [])
  {
    assert [o][1..] == [];
  }

  function EmitAll(chunks: seq<string>): (events: seq<Event>)
    ensures |events| == |chunks|
    ensures forall i :: 0 <= i < |chunks| ==> events[i] == Emit(chunks[i])
    ensures ChunksOf(events) == chunks
    decreases |chunks|
  {
    if |chunks| == 0 then []
    else
      var events := [Emit(chunks[0])] + EmitAll(chunks[1..]);
      assert events[1..] == EmitAll(chunks[1..]);
      events
  }

  /** How the loop was left: exit code seen, deadline passed, or the trace
      ended with the process still being polled. */
  datatype LoopEnd = Exited(code: int) | TimedOut | Polling

  datatype LoopResult = LoopResult(events: seq<Event>, end: LoopEnd)

  /** The lines one observation contributes to the stream. */
  function Shown(o: Observation): seq<Event> {
    if o.line != "" then [Emit(o.line)] else []
  }

  /** The `while True` loop over the observed trace: shows each non-empty
      line, then tests the returncode, then the clock. */
  function Loop(trace: seq<Observation>, deadline: int): (l: LoopResult)
    ensures Quiet(l.events)
    decreases |trace|
  {
    if |trace| == 0 then LoopResult([], Polling)
    else
      var o := trace[0];
      if o.returncode.Some? then LoopResult(Shown(o), Exited(o.returncode.value))
      else if o.now > deadline then LoopResult(Shown(o) + [Kill, Emit(TimeoutMarker)], TimedOut)
      else
        var rest := Loop(trace[1..], deadline);
        LoopResult(Shown(o) + rest.events, rest.end)
  }

  /** If no observation passes the exit test, the loop is still polling,
      having shown every non-empty line. */
  lemma {:induction false} LoopPolling(trace: seq<Observation>, deadline: int)
    requires FirstStop(trace, deadline).None?
    ensures Loop(trace, deadline) == LoopResult(EmitAll(NonEmptyLines(trace)), Polling)
    decreases |trace|
  {
    if |trace| > 0 {
      var o := trace[0];
      assert !StopsLoop(o, deadline);
      var rest := Loop(trace[1..], deadline);
      assert Loop(trace, deadline) == LoopResult(Shown(o) + rest.events, rest.end);
      LoopPolling(trace[1..], deadline);
      LoopStep(trace, deadline, Shown(o));
    }
  }

  /** The events and the exit of the loop leaving at observation `k`. */
  function Leaving(trace: seq<Observation>, k: nat): LoopResult
    requires k < |trace|
  {
    var o := trace[k];
    LoopResult(
      EmitAll(NonEmptyLines(trace[..k + 1]))
        + (if o.returncode.Some? then [] else [Kill, Emit(TimeoutMarker)]),
      if o.returncode.Some? then Exited(o.returncode.value) else TimedOut)
  }

  /** The loop leaves at the first observation passing the exit test,
      having shown the non-empty lines up to and including it. The
      returncode is tested before the clock, so a process that has exited
      is never reported as timed out; on a timeout the process is killed
      and the timeout chunk shown. */
  lemma {:induction false} LoopStops(trace: seq<Observation>, deadline: int)
    requires FirstStop(trace, deadline).Some?
    ensures Loop(trace, deadline) == Leaving(trace, FirstStop(trace, deadline).value)
    decreases |trace|
  {
    var o := trace[0];
    if StopsLoop(o, deadline) {
      LoopStopsAtFirst(trace, deadline);
    } else {
      var k := FirstStop(trace, deadline).value;
      var rest := Loop(trace[1..], deadline);
      assert Loop(trace, deadline) == LoopResult(Shown(o) + rest.events, rest.end);
      LoopStep(trace, deadline, Shown(o));
      LoopStops(trace[1..], deadline);
      var last := trace[k];
      assert trace[1..][k - 1] == last;
      var marker: seq<Event> := if last.returncode.Some? then [] else [Kill, Emit(TimeoutMarker)];
      var earlier := EmitAll(NonEmptyLines(trace[1..][..k]));
      assert rest.events == earlier + marker;
      assert Shown(o) + (earlier + marker) == (Shown(o) + earlier) + marker;
    }
  }

  lemma LoopStopsAtFirst(trace: seq<Observation>, deadline: int)
    requires |trace| > 0 && StopsLoop(trace[0], deadline)
    ensures FirstStop(trace, deadline) == Some(0)
    ensures Loop(trace, deadline) == Leaving(trace, 0)
  {
    assert trace[..1][1..] == [];
    assert Shown(trace[0]) == EmitAll(NonEmptyLines(trace[..1]));
  }

  lemma LoopSpec(trace: seq<Observation>, deadline: int)
    ensures FirstStop(trace, deadline).None? ==>
      Loop(trace, deadline) == LoopResult(EmitAll(NonEmptyLines(trace)), Polling)
    ensures FirstStop(trace, deadline).Some? ==>
      Loop(trace, deadline) == Leaving(trace, FirstStop(trace, deadline).value)
  {
    if FirstStop(trace, deadline).None? {
      LoopPolling(trace, deadline);
    } else {
      LoopStops(trace, deadline);
    }
  }

  /** The lines shown before the loop resumes at the second observation
      join the lines shown after it. */
  lemma LoopStep(trace: seq<Observation>, deadline: int, shown: seq<Event>)
    requires |trace| > 0 && !StopsLoop(trace[0], deadline)
    requires shown == (if trace[0].line != "" then [Emit(trace[0].line)] else [])
    ensures FirstStop(trace, deadline).None? ==>
      shown + EmitAll(NonEmptyLines(trace[1..])) == EmitAll(NonEmptyLines(trace))
    ensures FirstStop(trace, deadline).Some? ==>
      var k := FirstStop(trace, deadline).value;
      && k >= 1 && FirstStop(trace[1..], deadline) == Some(k - 1)
      && shown + EmitAll(NonEmptyLines(trace[1..][..k])) == EmitAll(NonEmptyLines(trace[..k + 1]))
  {
    if FirstStop(trace, deadline).Some? {
      var k := FirstStop(trace, deadline).value;
      assert FirstStop(trace[1..], deadline) == Some(k - 1);
      assert trace[..k + 1][0] == trace[0];
      ShownJoins(trace[..k + 1]);
      assert trace[..k + 1][1..] == trace[1..][..k];
    } else {
      ShownJoins(trace);
    }
  }

  /** The lines of the first observation followed by those of the rest. */
  lemma ShownJoins(trace: seq<Observation>)
    requires |trace| > 0
    ensures Shown(trace[0]) + EmitAll(NonEmptyLines(trace[1..])) == EmitAll(NonEmptyLines(trace))
  {
    var here := if trace[0].line != "" then [trace[0].line] else [];
    EmitAllAppend(here, NonEmptyLines(trace[1..]));
  }

  lemma {:induction false} EmitAllAppend(a: seq<string>, b: seq<string>)
    ensures EmitAll(a + b) == EmitAll(a) + EmitAll(b)
    decreases |a|
  {
    if |a| == 0 {
      assert a + b == b;
    } else {
      assert (a + b)[1..] == a[1..] + b;
      EmitAllAppend(a[1..], b);
    }
  }


  // ---------------------------------------------------------------------
  // One run
  // ---------------------------------------------------------------------

  /** What the OS and the clock supply to one run. `rcAfterKill` is
      `process.returncode` as read after the timeout chunk was yielded:
      the process may or may not have been reaped by then. */
  datatype Env = Env(pid: int, spawnTime: int, trace: seq<Observation>, rcAfterKill: Option<int>)

  /** Fixed once, right after the spawn. */
  function Deadline(env: Env): int {
    env.spawnTime + TimeoutSeconds
  }

  /** How far a run gets: it raises for a missing lock before doing
      anything; it waits on `acquire` while another run holds the lock; it
      raises after the spawn when no store is attached; it is still
      polling when the trace ends before the exit test passes; or it
      completes with its terminal record. */
  datatype Outcome =
    | NoLockError
    | AwaitingLock
    | StoreError
    | InProgress
    | Completed(record: RunRecord)

  datatype RunResult = RunResult(outcome: Outcome, events: seq<Event>)

  function RunningRecord(pid: int): RunRecord {
    RunRecord(Some(pid), None, Running)
  }

  /** Acquire, the two header chunks, the spawn. */
  function Opening(r: CommandRunner, args: seq<string>, pid: int): seq<Event> {
    [Acquire, Emit(Banner), Emit(RunningLine(Command(r, args))), Spawn(pid)]
  }

  /** The opening, then the RUNNING record. */
  function Started(r: CommandRunner, args: seq<string>, pid: int): seq<Event> {
    Opening(r, args, pid) + [Publish(r.taskName, RunningRecord(pid))]
  }

  /** The terminal record, the release, the closing chunk; nothing while
      the run is still polling. */
  function Closing(taskName: string, outcome: Outcome): seq<Event> {
    if outcome.Completed?
    then [Publish(taskName, outcome.record), Release, Emit(ClosingLine(outcome.record.exitCode))]
    else []
  }

  /** The outcome once the loop is left, or while it still polls. */
  function LoopOutcome(pid: int, end: LoopEnd, rcAfterKill: Option<int>): Outcome {
    match end
    case Polling => InProgress
    case Exited(code) => Completed(RunRecord(Some(pid), Some(code), Finished))
    case TimedOut => Completed(RunRecord(Some(pid), rcAfterKill, Timeout))
  }

  lemma ReplayOpening(r: CommandRunner, args: seq<string>, pid: int, locked: bool, store: Store)
    ensures LockAfter(locked, Opening(r, args, pid))
    ensures StoreAfter(store, Opening(r, args, pid)) == store
    ensures ChunksOf(Opening(r, args, pid)) == [Banner, RunningLine(Command(r, args))]
  {
    var o := Opening(r, args, pid);
    assert o[3..][1..] == [];
    assert o[2..][1..] == o[3..];
    assert o[1..][1..] == o[2..];
    assert LockAfter(true, o[2..]);
    assert LockAfter(true, o[1..]);
    assert StoreAfter(store, o[3..]) == store;
    assert StoreAfter(store, o[2..]) == store;
    assert StoreAfter(store, o[1..]) == store;
    assert ChunksOf(o[3..]) == [];
    assert ChunksOf(o[2..]) == [RunningLine(Command(r, args))];
  }

  lemma ReplayStarted(r: CommandRunner, args: seq<string>, pid: int, locked: bool, store: Store)
    ensures LockAfter(locked, Started(r, args, pid))
    ensures StoreAfter(store, Started(r, args, pid)) == store[r.taskName := RunningRecord(pid)]
    ensures ChunksOf(Started(r, args, pid)) == [Banner, RunningLine(Command(r, args))]
    ensures PublishesUnderLock(locked, Started(r, args, pid))
  {
    var o := Opening(r, args, pid);
    var p := [Publish(r.taskName, RunningRecord(pid))];
    ReplayOpening(r, args, pid, locked, store);
    ReplayAppend(locked, store, o, p);
    assert p[1..] == [];
    assert PublishesUnderLock(locked, o);
    assert PublishesUnderLock(true, p) by {
      assert p[..0] == [];
    }
    PublishesUnderLockAppend(locked, o, p);
  }

  lemma ReplayClosing(taskName: string, outcome: Outcome, store: Store)
    ensures outcome.Completed? ==> !LockAfter(true, Closing(taskName, outcome))
    ensures !outcome.Completed? ==> LockAfter(true, Closing(taskName, outcome))
    ensures outcome.Completed? ==> StoreAfter(store, Closing(taskName, outcome)) == store[taskName := outcome.record]
    ensures !outcome.Completed? ==> StoreAfter(store, Closing(taskName, outcome)) == store
    ensures outcome.Completed? ==> ChunksOf(Closing(taskName, outcome)) == [ClosingLine(outcome.record.exitCode)]
    ensures !outcome.Completed? ==> ChunksOf(Closing(taskName, outcome)) == []
    ensures PublishesUnderLock(true, Closing(taskName, outcome))
    ensures forall i :: 0 <= i < |Closing(taskName, outcome)| ==> !Closing(taskName, outcome)[i].Spawn?
  {
    var c := Closing(taskName, outcome);
    if outcome.Completed? {
      assert c[2..][1..] == [];
      assert c[1..][1..] == c[2..];
      assert !LockAfter(false, c[2..]);
      assert !LockAfter(true, c[1..]);
      var s1 := store[taskName := outcome.record];
      assert StoreAfter(s1, c[2..]) == s1;
      assert StoreAfter(s1, c[1..]) == s1;
      assert ChunksOf(c[2..]) == [ClosingLine(outcome.record.exitCode)];
      assert ChunksOf(c[1..]) == [ClosingLine(outcome.record.exitCode)];
      assert PublishesUnderLock(true, c) by {
        assert c[..0] == [];
      }
    }
  }

  /** The loop is still polling exactly when no observation passes the
      exit test. */
  lemma LoopEndPolling(trace: seq<Observation>, deadline: int)
    ensures Loop(trace, deadline).end.Polling? <==> FirstStop(trace, deadline).None?
  {
    LoopSpec(trace, deadline);
  }

  /** Where the opening, the RUNNING record and the closing sit in an
      assembled log. */
  lemma Assembled(r: CommandRunner, args: seq<string>, pid: int, middle: seq<Event>, outcome: Outcome)
    ensures var ev := Started(r, args, pid) + middle + Closing(r.taskName, outcome);
      && |ev| >= 5
      && ev[..4] == Opening(r, args, pid)
      && ev[4] == Publish(r.taskName, RunningRecord(pid))
      && (outcome.Completed? ==>
            && |ev| >= 8
            && ev[|ev| - 3..] == Closing(r.taskName, outcome))
  {
    var ev := Started(r, args, pid) + middle + Closing(r.taskName, outcome);
    assert ev[..4] == Opening(r, args, pid);
  }

  /** `run(args)`, with `locked` the state of the shared lock when the
      stream is first pulled. */
  function Run(r: CommandRunner, args: seq<string>, locked: bool, env: Env): (res: RunResult)
    ensures res.outcome == NoLockError <==> !r.lockAttached
    ensures res.outcome == AwaitingLock <==> r.lockAttached && locked
    ensures res.events == [] <==> !r.lockAttached || locked
    ensures res.outcome == StoreError <==> r.lockAttached && !locked && !r.storeAttached
    ensures r.lockAttached && !locked ==> |res.events| >= 4 && res.events[..4] == Opening(r, args, env.pid)
    ensures r.lockAttached && !locked && r.storeAttached ==>
      && |res.events| >= 5
      && res.events[4] == Publish(r.taskName, RunningRecord(env.pid))
      && (res.outcome.InProgress? <==> FirstStop(env.trace, Deadline(env)).None?)
      && (res.outcome.Completed? <==> FirstStop(env.trace, Deadline(env)).Some?)
    ensures res.outcome.Completed? ==>
      var rec := res.outcome.record;
      && |res.events| >= 8
      && res.events[|res.events| - 3..]
         == [Publish(r.taskName, rec), Release, Emit(ClosingLine(rec.exitCode))]
  {
    if !r.lockAttached then RunResult(NoLockError, [])
    else if locked then RunResult(AwaitingLock, [])
    else if !r.storeAttached then RunResult(StoreError, Opening(r, args, env.pid))
    else
      LoopEndPolling(env.trace, Deadline(env));
      var loop := Loop(env.trace, Deadline(env));
      var outcome := LoopOutcome(env.pid, loop.end, env.rcAfterKill);
      Assembled(r, args, env.pid, loop.events, outcome);
      RunResult(outcome, Started(r, args, env.pid) + loop.events + Closing(r.taskName, outcome))
  }
}
