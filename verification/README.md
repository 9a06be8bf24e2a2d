# SDCI command runner and task endpoints, in Dafny

SDCI is a small remote task runner. A client posts a task name and
arguments. The server resolves the name to `./tasks/<name>.sh`, runs it with
`bash`, and streams the output back. Runs are serialised by one process-wide
lock. The latest run record of each task (`pid`, `exit_code`, `status`) is
kept in a process-wide store that a second endpoint reads.

This project models two parts of that system:

- `CommandRunner` (`src/sdci/runner.py`): resolution, `for_lock` and
  `for_store`, the command line, and `run`.
- The HTTP layer in `src/server.py`: the bearer-token check, the trigger
  endpoint's gate (401, then 422, then 429, then the stream), the status
  endpoint with its default STOPPED record, and the two schemas.

Modules:

- `Wrappers`: `Option` and `Result`.
- `Records`: the run record, the phase literals, the status store, and
  the request body.
- `PyText`: the Python text renderings that reach the stream. These are
  `str(list_of_str)` in the `RUNNING: [...]` chunk and `str(Optional[int])`
  in the `EXITED (...)` chunk. Each has a reader and a round-trip lemma.
- `Runner`: the runner and `run`. The run is a pure function that returns an
  ordered event log: `Acquire`, `Emit(chunk)`, `Spawn(pid)`,
  `Publish(task, record)`, `Kill` and `Release`. The streamed chunks, the
  store and the lock are replays of that log (`ChunksOf`, `StoreAfter`,
  `LockAfter`). This lets the model state both the final state and the order
  of effects, such as "every store write happens under the lock".
- `RunProperties`: what one run guarantees about the lock, the store, the
  stream and the terminal record.
- `Server`: `verify_token`, `run_task`, `get_task_status`, and a server
  state (lock, store, existing scripts) that requests read and started runs
  update.
- `ServerProperties`: the order of the gate's checks, that refused requests
  change nothing, what an accepted trigger leaves behind, the
  check-then-acquire window, and three worked runs: a script that prints
  one line and exits 0, a silent script that outlives the deadline, and a
  trigger for a task whose script does not exist.

The environment supplies:

- the OS process and the clock, as an `Env`: the pid the spawn returns,
  the clock reading right after the spawn (the deadline is that plus 12),
  and a finite trace of what each loop iteration observes. Each observation
  is the line `readline()` returned (`""` at end of output), the
  `returncode` at the exit test, and the clock at the deadline test.
- `rcAfterKill`: `process.returncode` read after the timeout chunk was
  yielded.
- the set of script paths that exist, which stands in for
  `os.path.exists`.

Behaviour of the code that the model keeps as written:

- **Lock on the missing-store path.** The lock is not released on every
  exit path. A runner with a lock but no store takes the lock, yields the
  header, spawns, and then fails writing the RUNNING record; the lock stays
  held (`StoreError`). The server always attaches both, so this path is only
  reachable through the runner on its own.
- **Exit code of a TIMEOUT record.** It is not necessarily absent. The code
  reads `process.returncode` after yielding the timeout chunk, which is a
  suspension point, so the record holds whatever the process reported by
  then (`rcAfterKill`).
- **Silent overrun.** The deadline is only tested when the loop wakes. A
  silent script that has exited by the time `readline()` returns at end of
  output is reported FINISHED, however late that is
  (`SilentOverrunReportedFinished`).
- **Check-then-acquire race.** The race is kept, not closed. The gate only
  looks at the lock; the run takes it when the stream is first pulled. Two
  triggers that both pass the gate are both accepted, and the second waits
  on the lock instead of getting 429 (`CheckThenAcquireRace`).
- **stderr.** Only stdout reaches the stream. stderr is piped but never
  read.

## Model

| member | source | states |
|---|---|---|
| Runner.New | src/sdci/runner.py:12-21 | Construction succeeds exactly when `./tasks/<name>.sh` exists. The runner keeps the name and that script, and has neither lock nor store attached. Otherwise the error is `SHELL FILE NOT FOUND ON SERVER: ` followed by the script path. |
| Runner.ShellFileRoundTrip | src/sdci/runner.py:13-14 | The script path gives the task name back, so two different task names never share a script. |
| Runner.ForLock | src/sdci/runner.py:23-25 | `for_lock` attaches the lock and leaves the name, the script and the store attachment unchanged. |
| Runner.ForStore | src/sdci/runner.py:27-29 | `for_store` attaches the store and leaves the name, the script and the lock attachment unchanged. |
| Runner.AttachOrder | src/sdci/runner.py:23-29 | Attaching twice is attaching once, the two attachments commute, and the chained calls give a runner with both. |
| Runner.Command | src/sdci/runner.py:35-36 | The command is `bash`, then the script, then exactly the caller's arguments in order. |
| Runner.RunningLineShowsCommand | src/sdci/runner.py:35-44 | The second chunk is `RUNNING: ` followed by text that reads back as the full command, every argument unchanged and in order. |
| PyText.ListReprRoundTrip | src/sdci/runner.py:44 | Python's `str()` of a list of strings reads back as the same list. |
| PyText.ReadStrRepr | src/sdci/runner.py:44 | Reading one string `repr` off the front of a text gives the original string and leaves what followed untouched, so element boundaries inside a list are unambiguous. |
| PyText.UnescapeEscapeBody | src/sdci/runner.py:44 | Undoing `repr`'s escapes (backslash, quote, `\t`, `\n`, `\r`, `\xNN`) gives the original characters, whichever quote was chosen. |
| PyText.PlainStrRepr | src/sdci/runner.py:44 | A string of printable ASCII characters other than the quotes and the backslash is written between single quotes as is, e.g. `'bash'`. |
| PyText.OptIntStrRoundTrip | src/sdci/runner.py:84 | `str()` of an optional exit code reads back as the same value; `None` is never the rendering of a number. |
| PyText.IntStrRoundTrip | src/sdci/runner.py:84 | `str()` of a possibly negative integer reads back as that integer. |
| Runner.ClosingLineShowsExitCode | src/sdci/runner.py:84 | The closing chunk is the banner plus `EXITED (`, then text reading back as the exit code (or `None`), then `)`. |
| Runner.FirstStop | src/sdci/runner.py:59-73 | Gives the first iteration at which the process has a returncode or the clock is strictly past the deadline. No earlier iteration passes the test, and none passes if it gives nothing. |
| Runner.NonEmptyLines | src/sdci/runner.py:60-63 | Only non-empty reads are streamed: every selected line is non-empty, there is at most one per read, and a trace of empty reads selects nothing. `NonEmptyLinesComplete` gives the other direction. |
| Runner.NonEmptyLinesComplete | src/sdci/runner.py:60-63 | Every non-empty read is among the streamed lines. |
| Runner.NonEmptyLinesAppend | src/sdci/runner.py:59-63 | Selection keeps read order: the lines of two consecutive stretches of reads are those of the first followed by those of the second. |
| Runner.NonEmptyLinesOne | src/sdci/runner.py:62-63 | One read contributes its line exactly when the line is non-empty. |
| Runner.Loop | src/sdci/runner.py:59-73 | The read loop neither takes nor releases the lock nor writes the store; it only streams and kills. |
| Runner.LoopPolling | src/sdci/runner.py:59-73 | If no iteration passes the exit test, the loop is still polling and has streamed every non-empty line in order. |
| Runner.LoopStops | src/sdci/runner.py:59-73 | The loop leaves at the first iteration passing the exit test, having streamed the non-empty lines up to and including it. The exit is FINISHED with that returncode if one is set; otherwise the process is killed and `TIMEOUT REACHED` is streamed. |
| Runner.Run | src/sdci/runner.py:31-84 | A runner without a lock fails before any effect. While the lock is held the run waits with no effect. A runner without a store fails right after acquire, header and spawn. Otherwise the log is acquire, banner, command line, spawn, then the RUNNING record. It is still polling exactly when no iteration passes the exit test, and completes otherwise. A completed log ends with the terminal record, the release, and the `EXITED` chunk. |
| RunProperties.RunLockDiscipline | src/sdci/runner.py:32-81 | Every store write happens while the lock is held. The lock is untouched when the run fails on a missing lock or waits. It stays held while polling and after the missing-store failure, and is free once the run completes. |
| RunProperties.RunStore | src/sdci/runner.py:50-79 | A run writes only its own task's key. The store is unchanged when the run fails or waits. While polling the key holds RUNNING with the new pid and no exit code; once complete it holds the terminal record. |
| RunProperties.RunTerminalRecord | src/sdci/runner.py:58-79 | The terminal record keeps the spawned pid, and its phase is FINISHED or TIMEOUT. It is FINISHED exactly when a returncode was seen at the iteration that left the loop, and then the exit code is that returncode. If TIMEOUT, the clock was strictly past spawn time + 12 and the exit code is what the process reported after the kill. |
| RunProperties.ExitBeatsTimeout | src/sdci/runner.py:65-73 | If the first stopping iteration sees both an exit code and a clock past the deadline, the run is FINISHED with that code, not TIMEOUT. |
| RunProperties.RunChunksStoreError | src/sdci/runner.py:43-56 | A run that fails on the missing store has streamed the banner and the command line only. |
| RunProperties.RunChunksPolling | src/sdci/runner.py:43-63 | A polling run has streamed the banner, the command line, and every non-empty line observed so far, in order. |
| RunProperties.RunChunksCompleted | src/sdci/runner.py:43-84 | A completed run has streamed the banner, the command line, the non-empty lines up to the leaving iteration, `TIMEOUT REACHED` exactly when the deadline ended it, and last the `EXITED` chunk with the recorded exit code. |
| RunProperties.LoopChunks | src/sdci/runner.py:59-73 | What the read loop streams, whether it is still polling or has been left. |
| RunProperties.RunSpawnsOnce | src/sdci/runner.py:43-56 | A started run spawns exactly one process, after the two header chunks. No output line is streamed before the RUNNING record. |
| Records.PhaseNames | src/server.py:57-60 | The status field accepts exactly the four phase literals, and each names its own phase. |
| Server.VerifyToken | src/server.py:43-50 | A credential is accepted exactly when it equals `HAPPY123`. Otherwise the error is a 401 with the `WWW-Authenticate: Bearer` challenge. |
| Server.RunTask | src/server.py:63-82 | 401 exactly when the credential is wrong. 422 exactly when it is right and the task does not resolve, with the resolver's message. 429 exactly when it resolves but the lock is held, with `Command already running`. Otherwise a stream over a runner for that script with lock and store attached and the request's arguments. |
| Server.GetTaskStatus | src/server.py:85-98 | 401 exactly when the credential is wrong. 404 exactly when the task does not resolve, with the resolver's message. Otherwise the stored record, or `{null, null, STOPPED}` for a task with no entry. |
| ServerProperties.CredentialCheckedFirst | src/server.py:43-50 | A wrong credential gets the same 401 from both endpoints, whatever the scripts, the lock and the store hold. |
| ServerProperties.ResolutionBeforeLock | src/server.py:69-80 | An unknown task gets 422 whether or not a run holds the lock. |
| ServerProperties.RefusedTriggerChangesNothing | src/server.py:63-82 | A trigger is refused exactly when the credential is wrong, the task does not resolve, or the lock is held. A refused trigger leaves the lock and the store as they were. |
| ServerProperties.TriggerRuns | src/server.py:70-82 | An accepted trigger runs the runner for `./tasks/<name>.sh` with both attachments and the request's arguments, applying its effects to the lock and the store. |
| ServerProperties.AcceptedTrigger | src/server.py:76-82 | An accepted trigger always gets past the spawn and writes only its own key. While polling the lock is held and the task shows RUNNING with the new pid. Once complete the lock is free and the task shows the terminal record. |
| ServerProperties.StatusOfUntriggered | src/server.py:94-96 | A task that has never run reports `{pid: null, exit_code: null, status: STOPPED}`. |
| ServerProperties.AfterCompletedRun | src/sdci/runner.py:75-81 | After a completed run, the status endpoint reports the terminal record with the run's pid and FINISHED or TIMEOUT, and a trigger for another task whose script exists is accepted at once. |
| ServerProperties.BusyWhileRunning | src/server.py:76-80 | While a run is polling, a trigger for any task whose script exists gets 429 and changes nothing, and the status endpoint reports RUNNING with the run's pid. |
| ServerProperties.CheckThenAcquireRace | src/server.py:76-82 | Two triggers that pass the gate before either stream starts are both accepted. Once the first run holds the lock, the second streams nothing, changes nothing, and waits on the lock rather than failing with 429. |
| ServerProperties.OneLineExitScenario | src/sdci/runner.py:43-84 | A script that prints one line and exits 0 streams the banner, the command line, the line, and last the literal chunk `\n**********\n\nEXITED (0)`. The status is then FINISHED with exit code 0, and the lock is free. |
| ServerProperties.ClosingLineZero | src/sdci/runner.py:84 | The closing chunk for exit code 0 is the banner followed by `EXITED (0)`. |
| ServerProperties.SilentScriptScenario | src/sdci/runner.py:58-84 | A silent script still running when the loop wakes past spawn time + 12 is killed. The stream ends with `TIMEOUT REACHED` and the `EXITED` chunk, the status is TIMEOUT, and the lock is free. |
| ServerProperties.SilentOverrunReportedFinished | src/sdci/runner.py:60-69 | A silent script that has exited when the loop first wakes is reported FINISHED, even past the deadline. |
| ServerProperties.UnknownTaskScenario | src/sdci/runner.py:18-21 | Triggering `backup` without its script gets 422 `SHELL FILE NOT FOUND ON SERVER: ./tasks/backup.sh` and leaves the server state as it was. |

## Left out

- The OS process, the pipes, `kill()` and `time.time()` are environment inputs. The trace is finite, and a run whose trace ends before the exit test passes is reported as still polling.
- Only stdout is modelled. stderr is piped and never read, so it contributes nothing to the stream.
- `asyncio` scheduling is left out. The lock is a boolean read when the stream is first pulled; the gate's check and the run's acquire stay separate steps, which is what keeps the race.
- The clock is an integer, not a float. Only its comparison with spawn time + 12 matters.
- `output.decode()` is left out: lines are already text.
- Exceptions are modelled only for the missing lock and the missing store. These other failures are not modelled:
  - a spawn failure, including the one `create_subprocess_exec` raises for a non-string argument (`{"args": [1]}`) or an argument containing NUL; `Run` reports a spawn the program would not make for such arguments;
  - a line that is not valid UTF-8, which makes `output.decode()` raise after the RUNNING record was written;
  - another read error, or a client disconnect mid-stream.

  Each of these happens after `acquire`, so the lock stays held and every later trigger gets 429. A decode or read failure also leaves the task's record at RUNNING.
- The text of the missing-lock exception (`NO LOCK available`) is not carried; the `NoLockError` outcome only records that the run raised before any effect. Raised from a streaming response, that text never reaches the client.
- Logging is left out, because it has no observable effect on the stream or the state.
- Request arguments are strings. The schema's `args: list` accepts any JSON values; what non-strings do is described in the line on exceptions above.
- PyText.StrRepr: non-ASCII characters are written as is. Python's `repr` escapes the non-printable ones as `\x`, `\u` or `\U`, and that printability table is not modelled.
- HTTPBearer's own rejection of a request without an `Authorization` header (403) is left out as framework behaviour; only the credential comparison is modelled.
- FastAPI routing, `StreamingResponse`, pydantic validation beyond the phase literals, the lifespan hook and `uvicorn` startup are left out.
- `src/sdci/server.py` and `src/sdci/command.py` are not part of this model.
