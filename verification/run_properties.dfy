/** What one run of a `CommandRunner` guarantees about the lock, the status
    store and the stream, stated over the replay of its event log. */
module RunProperties {
  import opened Wrappers
  import opened Records
  import opened Runner

  /** The three parts of the log of a run that got past the spawn. */
  lemma RunParts(r: CommandRunner, args: seq<string>, env: Env)
    requires r.lockAttached && r.storeAttached
    ensures var loop := Loop(env.trace, Deadline(env));
      var res := Run(r, args, false, env);
      && res.outcome == LoopOutcome(env.pid, loop.end, env.rcAfterKill)
      && res.events == Started(r, args, env.pid) + loop.events + Closing(r.taskName, res.outcome)
  {
  }

  /** The lock is free before the run starts working and free again once it
      completes; it stays held while the run is polling or after it raised
      on a missing store; and every store write happens under it. */
  lemma RunLockDiscipline(r: CommandRunner, args: seq<string>, locked: bool, env: Env)
    ensures var res := Run(r, args, locked, env);
      && PublishesUnderLock(locked, res.events)
      && (res.outcome.NoLockError? || res.outcome.AwaitingLock? ==> LockAfter(locked, res.events) == locked)
      && (res.outcome.StoreError? || res.outcome.InProgress? ==> LockAfter(locked, res.events))
      && (res.outcome.Completed? ==> !LockAfter(locked, res.events))
  {
    var res := Run(r, args, locked, env);
    if r.lockAttached && !locked {
      ReplayOpening(r, args, env.pid, false, map[]);
      var o := Opening(r, args, env.pid);
      assert PublishesUnderLock(false, o) by {
        assert forall i :: 0 <= i < |o| ==> !o[i].Publish?;
      }
      if r.storeAttached {
        RunParts(r, args, env);
        var st := Started(r, args, env.pid);
        var le := Loop(env.trace, Deadline(env)).events;
        var cl := Closing(r.taskName, res.outcome);
        ReplayStarted(r, args, env.pid, false, map[]);
        QuietReplay(true, map[], le);
        assert PublishesUnderLock(true, le) by {
          assert forall i :: 0 <= i < |le| ==> !le[i].Publish?;
        }
        PublishesUnderLockAppend(false, st, le);
        ReplayAppend(false, map[], st, le);
        ReplayClosing(r.taskName, res.outcome, map[]);
        PublishesUnderLockAppend(false, st + le, cl);
        ReplayAppend(false, map[], st + le, cl);
      }
    }
  }

  /** A run writes only its own task's key: it leaves the store alone when
      it raises or waits, it has published the RUNNING record while
      polling, and the terminal record once completed. */
  lemma RunStore(r: CommandRunner, args: seq<string>, locked: bool, env: Env, store: Store)
    ensures var res := Run(r, args, locked, env);
      var after := StoreAfter(store, res.events);
      && (forall k :: k != r.taskName ==>
            (k in after <==> k in store) && (k in store ==> after[k] == store[k]))
      && ((res.outcome.NoLockError? || res.outcome.AwaitingLock? || res.outcome.StoreError?) ==>
            after == store)
      && (res.outcome.InProgress? ==> after == store[r.taskName := RunningRecord(env.pid)])
      && (res.outcome.Completed? ==> after == store[r.taskName := res.outcome.record])
  {
    var res := Run(r, args, locked, env);
    if r.lockAttached && !locked {
      ReplayOpening(r, args, env.pid, false, store);
      if r.storeAttached {
        RunStoreParts(r, args, env, store);
      }
    }
  }

  /** The store after a run that got past the spawn: the task's key holds
      the RUNNING record while polling and the terminal record once
      completed. */
  lemma RunStoreParts(r: CommandRunner, args: seq<string>, env: Env, store: Store)
    requires r.lockAttached && r.storeAttached
    ensures var res := Run(r, args, false, env);
      StoreAfter(store, res.events)
        == store[r.taskName := if res.outcome.Completed? then res.outcome.record else RunningRecord(env.pid)]
  {
    var res := Run(r, args, false, env);
    RunParts(r, args, env);
    var st := Started(r, args, env.pid);
    var le := Loop(env.trace, Deadline(env)).events;
    var cl := Closing(r.taskName, res.outcome);
    var running := store[r.taskName := RunningRecord(env.pid)];
    ReplayStarted(r, args, env.pid, false, store);
    QuietReplay(true, running, le);
    StoreAppend(store, st, le);
    ReplayClosing(r.taskName, res.outcome, running);
    StoreAppend(store, st + le, cl);
    if res.outcome.Completed? {
      assert running[r.taskName := res.outcome.record] == store[r.taskName := res.outcome.record];
    }
  }

  /** The terminal record of a completed run: it keeps the pid of the
      RUNNING record; its phase is FINISHED exactly when the returncode was
      seen at the iteration that left the loop (even past the deadline), and
      then the exit code is that returncode; otherwise the phase is TIMEOUT,
      the clock was strictly past spawn time + 12, and the exit code is
      whatever the process reported after the kill, possibly nothing. */
  lemma RunTerminalRecord(r: CommandRunner, args: seq<string>, env: Env)
    requires r.lockAttached && r.storeAttached
    requires FirstStop(env.trace, Deadline(env)).Some?
    ensures var res := Run(r, args, false, env);
      var o := env.trace[FirstStop(env.trace, Deadline(env)).value];
      && res.outcome.Completed?
      && res.outcome.record.pid == Some(env.pid)
      && (res.outcome.record.status == Finished || res.outcome.record.status == Timeout)
      && (res.outcome.record.status == Finished <==> o.returncode.Some?)
      && (res.outcome.record.status == Finished ==> res.outcome.record.exitCode == o.returncode)
      && (res.outcome.record.status == Timeout ==>
            && o.now > env.spawnTime + 12
            && res.outcome.record.exitCode == env.rcAfterKill)
  {
    RunParts(r, args, env);
    LoopSpec(env.trace, Deadline(env));
  }

  /** Exit beats timeout: when the first iteration passing the exit test
      sees both a returncode and a clock past the deadline, the run is
      FINISHED with that returncode. */
  lemma ExitBeatsTimeout(r: CommandRunner, args: seq<string>, env: Env, k: nat)
    requires r.lockAttached && r.storeAttached
    requires k < |env.trace|
    requires forall j :: 0 <= j < k ==> !StopsLoop(env.trace[j], Deadline(env))
    requires env.trace[k].returncode.Some? && env.trace[k].now > Deadline(env)
    ensures Run(r, args, false, env).outcome
      == Completed(RunRecord(Some(env.pid), env.trace[k].returncode, Finished))
  {
    assert FirstStop(env.trace, Deadline(env)) == Some(k);
    RunTerminalRecord(r, args, env);
  }

  /** The stream of a run that raised on a missing store: the header only. */
  lemma RunChunksStoreError(r: CommandRunner, args: seq<string>, env: Env)
    requires r.lockAttached && !r.storeAttached
    ensures ChunksOf(Run(r, args, false, env).events) == [Banner, RunningLine(Command(r, args))]
  {
    ReplayOpening(r, args, env.pid, false, map[]);
  }

  /** The chunks the read loop streams: the non-empty lines up to the
      iteration that left it, then the timeout chunk if the deadline ended
      it; every non-empty line if it has not been left. */
  lemma LoopChunks(trace: seq<Observation>, deadline: int)
    ensures FirstStop(trace, deadline).None? ==>
      ChunksOf(Loop(trace, deadline).events) == NonEmptyLines(trace)
    ensures FirstStop(trace, deadline).Some? ==>
      var k := FirstStop(trace, deadline).value;
      ChunksOf(Loop(trace, deadline).events)
        == NonEmptyLines(trace[..k + 1])
           + (if trace[k].returncode.None? then [TimeoutMarker] else [])
  {
    if FirstStop(trace, deadline).Some? {
      LoopChunksLeaving(trace, deadline, FirstStop(trace, deadline).value);
    } else {
      LoopPolling(trace, deadline);
    }
  }

  /** The stream of a run that got past the spawn is the header, what the
      loop streamed, and what the closing streamed. */
  lemma RunChunkParts(r: CommandRunner, args: seq<string>, env: Env)
    requires r.lockAttached && r.storeAttached
    ensures var res := Run(r, args, false, env);
      ChunksOf(res.events)
        == [Banner, RunningLine(Command(r, args))]
           + ChunksOf(Loop(env.trace, Deadline(env)).events)
           + (if res.outcome.Completed? then [ClosingLine(res.outcome.record.exitCode)] else [])
  {
    RunParts(r, args, env);
    var res := Run(r, args, false, env);
    var st := Started(r, args, env.pid);
    var le := Loop(env.trace, Deadline(env)).events;
    ReplayStarted(r, args, env.pid, false, map[]);
    ReplayAppend(false, map[], st, le);
    ReplayAppend(false, map[], st + le, Closing(r.taskName, res.outcome));
    ReplayClosing(r.taskName, res.outcome, map[]);
  }

  /** The stream of a run still polling: the header, then every non-empty
      line observed so far, in order. */
  lemma RunChunksPolling(r: CommandRunner, args: seq<string>, env: Env)
    requires r.lockAttached && r.storeAttached
    requires FirstStop(env.trace, Deadline(env)).None?
    ensures ChunksOf(Run(r, args, false, env).events)
      == [Banner, RunningLine(Command(r, args))] + NonEmptyLines(env.trace)
  {
    RunChunkParts(r, args, env);
    LoopChunks(env.trace, Deadline(env));
  }

  /** The stream of a completed run: the banner, the command line, every
      non-empty line observed up to the iteration that left the loop, the
      timeout chunk if the deadline ended it, and last the closing chunk
      with the recorded exit code. */
  lemma RunChunksCompleted(r: CommandRunner, args: seq<string>, env: Env)
    requires r.lockAttached && r.storeAttached
    requires FirstStop(env.trace, Deadline(env)).Some?
    ensures var res := Run(r, args, false, env);
      var k := FirstStop(env.trace, Deadline(env)).value;
      && res.outcome.Completed?
      && ChunksOf(res.events)
         == [Banner, RunningLine(Command(r, args))] + NonEmptyLines(env.trace[..k + 1])
            + (if env.trace[k].returncode.None? then [TimeoutMarker] else [])
            + [ClosingLine(res.outcome.record.exitCode)]
  {
    var res := Run(r, args, false, env);
    var k := FirstStop(env.trace, Deadline(env)).value;
    var head := [Banner, RunningLine(Command(r, args))];
    var lines := NonEmptyLines(env.trace[..k + 1]);
    var marker: seq<string> := if env.trace[k].returncode.None? then [TimeoutMarker] else [];
    var closing := [ClosingLine(res.outcome.record.exitCode)];
    RunChunksOfCompleted(r, args, env);
    LoopChunksLeaving(env.trace, Deadline(env), k);
    Regroup(head, ChunksOf(Loop(env.trace, Deadline(env)).events), lines, marker, closing);
  }

  lemma Regroup<T>(head: seq<T>, middle: seq<T>, lines: seq<T>, marker: seq<T>, closing: seq<T>)
    requires middle == lines + marker
    ensures head + middle + closing == head + lines + marker + closing
  {
  }

  /** The stream of a completed run is the header, what the loop streamed,
      and the closing chunk. */
  lemma RunChunksOfCompleted(r: CommandRunner, args: seq<string>, env: Env)
    requires r.lockAttached && r.storeAttached
    requires FirstStop(env.trace, Deadline(env)).Some?
    ensures var res := Run(r, args, false, env);
      && res.outcome.Completed?
      && ChunksOf(res.events)
         == [Banner, RunningLine(Command(r, args))]
            + ChunksOf(Loop(env.trace, Deadline(env)).events)
            + [ClosingLine(res.outcome.record.exitCode)]
  {
    RunChunkParts(r, args, env);
  }

  /** The chunks of the loop leaving at the first stopping observation. */
  lemma LoopChunksLeaving(trace: seq<Observation>, deadline: int, k: nat)
    requires FirstStop(trace, deadline) == Some(k)
    ensures k < |trace|
    ensures ChunksOf(Loop(trace, deadline).events)
        == NonEmptyLines(trace[..k + 1])
           + (if trace[k].returncode.None? then [TimeoutMarker] else [])
  {
    LoopStops(trace, deadline);
    var lines := EmitAll(NonEmptyLines(trace[..k + 1]));
    var timedOut := trace[k].returncode.None?;
    var marker: seq<Event> := if !timedOut then [] else [Kill, Emit(TimeoutMarker)];
    assert Loop(trace, deadline).events == lines + marker;
    ChunksAppend(lines, marker);
    MarkerChunks(timedOut);
  }

  /** The kill streams nothing; the timeout chunk streams the marker. */
  lemma MarkerChunks(timedOut: bool)
    ensures ChunksOf(if !timedOut then [] else [Kill, Emit(TimeoutMarker)])
      == (if timedOut then [TimeoutMarker] else [])
  {
    if timedOut {
      var m := [Kill, Emit(TimeoutMarker)];
      assert m[1..] == [Emit(TimeoutMarker)];
      assert m[1..][1..] == [];
      assert ChunksOf(m[1..][1..]) == [];
      assert ChunksOf(m[1..]) == [TimeoutMarker];
    } else {
      var m: seq<Event> := [];
      assert ChunksOf(m) == [];
    }
  }

  /** A started run spawns exactly one process, after the two header chunks
      and before its RUNNING record; no output line precedes that record. */
  lemma RunSpawnsOnce(r: CommandRunner, args: seq<string>, env: Env)
    requires r.lockAttached
    ensures var res := Run(r, args, false, env);
      && res.events[3] == Spawn(env.pid)
      && (forall i :: 0 <= i < |res.events| && res.events[i].Spawn? ==> i == 3)
      && (r.storeAttached ==> ChunksOf(res.events[..5]) == [Banner, RunningLine(Command(r, args))])
  {
    var res := Run(r, args, false, env);
    if r.storeAttached {
      RunParts(r, args, env);
      var st := Started(r, args, env.pid);
      var le := Loop(env.trace, Deadline(env)).events;
      var cl := Closing(r.taskName, res.outcome);
      ReplayClosing(r.taskName, res.outcome, map[]);
      assert res.events[..5] == st;
      ReplayStarted(r, args, env.pid, false, map[]);
    }
  }
}
