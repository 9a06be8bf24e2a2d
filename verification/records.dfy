/** The run record kept per task (the server's `TaskOutputSchema`), the
    process-wide status store, and the trigger request body. */
module Records {
  import opened Wrappers

  /** The `status` field: a run that never happened, one in progress, one
      whose process exited by itself, and one killed at the deadline. */
  datatype Phase = Stopped | Running | Finished | Timeout

  /** The literal the schema uses for each phase. */
  function PhaseName(p: Phase): string {
    match p
    case Stopped => "STOPPED"
    case Running => "RUNNING"
    case Finished => "FINISHED"
    case Timeout => "TIMEOUT"
  }

  /** Validation of the `status` field against the schema's four literals. */
  function ParsePhase(s: string): Option<Phase> {
    if s == "STOPPED" then Some(Stopped)
    else if s == "RUNNING" then Some(Running)
    else if s == "FINISHED" then Some(Finished)
    else if s == "TIMEOUT" then Some(Timeout)
    else None
  }

  /** The status field accepts exactly the four phase names, each naming
      its own phase. */
  lemma PhaseNames(p: Phase, s: string)
    ensures ParsePhase(PhaseName(p)) == Some(p)
    ensures ParsePhase(s) == Some(p) <==> s == PhaseName(p)
  {
  }

  /** `{pid, exit_code, status}`; `None` is the schema's `null`. */
  datatype RunRecord = RunRecord(pid: Option<int>, exitCode: Option<int>, status: Phase)

  /** The schema's defaults: what a task that has never run reports. */
  const Default: RunRecord := RunRecord(None, None, Stopped)

  /** Task name to latest run record; keys appear on a task's first run. */
  type Store = map<string, RunRecord>

  /** `store.get(name, default)`. */
  function Lookup(store: Store, name: string): RunRecord {
    if name in store then store[name] else Default
  }

  /** The trigger request body; `args` defaults to the empty list. */
  datatype TaskRequest = TaskRequest(args: seq<string>)

  const DefaultRequest: TaskRequest := TaskRequest([])
}
