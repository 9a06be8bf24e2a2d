/** The HTTP layer in front of the runner: the bearer-token check, the
    trigger endpoint's gate (token, then task resolution, then the
    non-blocking lock check, then hand-off to the run), and the status
    endpoint. The process-wide lock and status store are an explicit
    server state that each request reads and the started run updates. */
module Server {
  import opened Wrappers
  import opened Records
  import Runner

  /** The shared secret a bearer credential must equal. */
  const Secret: string := "HAPPY123"
  const InvalidCredentials: string := "Invalid authentication credentials"
  const AlreadyRunning: string := "Command already running"

  /** An `HTTPException`; `challenge` is the `WWW-Authenticate: Bearer`
      header. */
  datatype HttpError = HttpError(code: int, detail: string, challenge: bool)

  const Unauthorized: HttpError := HttpError(401, InvalidCredentials, true)

  /** `verify_token`: `None` when the credential is accepted. */
  function VerifyToken(credentials: string): (e: Option<HttpError>)
    ensures e.None? <==> credentials == Secret
    ensures e.Some? ==> e.value.code == 401 && e.value.challenge
  {
    if credentials != Secret then Some(Unauthorized) else None
  }

  /** What the trigger endpoint returns before any chunk is produced: an
      error, or a stream that will run the given runner. */
  datatype TriggerReply =
    | Rejected(error: HttpError)
    | Streaming(runner: Runner.CommandRunner, args: seq<string>)

  /** `run_task`: token first, then resolution (422 with the resolver's
      message), then the lock check (429); otherwise a stream over a runner
      with the shared lock and store attached. The lock is only looked at,
      not taken: the run takes it when the stream is first pulled. */
  function RunTask(credentials: string, taskName: string, request: TaskRequest,
                   locked: bool, scripts: set<string>): (reply: TriggerReply)
    ensures reply.Rejected? && reply.error.code == 401 <==> credentials != Secret
    ensures reply.Rejected? && reply.error.code == 422
      <==> credentials == Secret && Runner.ShellFile(taskName) !in scripts
    ensures reply.Rejected? && reply.error.code == 429
      <==> credentials == Secret && Runner.ShellFile(taskName) in scripts && locked
    ensures reply.Streaming?
      <==> credentials == Secret && Runner.ShellFile(taskName) in scripts && !locked
    ensures reply.Rejected? && reply.error.code == 422 ==>
      reply.error.detail == Runner.NotFoundMessage(taskName)
    ensures reply.Rejected? && reply.error.code == 429 ==>
      reply.error.detail == AlreadyRunning
    ensures reply.Streaming? ==>
      && reply.runner.taskName == taskName
      && reply.runner.shellFile == Runner.ShellFile(taskName)
      && reply.runner.lockAttached && reply.runner.storeAttached
      && reply.args == request.args
  {
    match VerifyToken(credentials)
    case Some(e) => Rejected(e)
    case None =>
      match Runner.New(taskName, scripts)
      case Failure(message) => Rejected(HttpError(422, message, false))
      case Success(runner) =>
        if locked then Rejected(HttpError(429, AlreadyRunning, false))
        else Streaming(Runner.ForStore(Runner.ForLock(runner)), request.args)
  }

  /** `get_task_status`: token first, then resolution (404 with the
      resolver's message), then the stored record, or the default STOPPED
      record for a task that has no entry. */
  function GetTaskStatus(credentials: string, taskName: string, store: Store,
                         scripts: set<string>): (r: Result<RunRecord, HttpError>)
    ensures r.Failure? && r.error.code == 401 <==> credentials != Secret
    ensures r.Failure? && r.error.code == 404
      <==> credentials == Secret && Runner.ShellFile(taskName) !in scripts
    ensures r.Failure? && r.error.code == 404 ==> r.error.detail == Runner.NotFoundMessage(taskName)
    ensures r.Success? <==> credentials == Secret && Runner.ShellFile(taskName) in scripts
    ensures r.Success? ==> taskName in store ==> r.value == store[taskName]
    ensures r.Success? ==> taskName !in store ==> r.value == RunRecord(None, None, Stopped)
  {
    match VerifyToken(credentials)
    case Some(e) => Failure(e)
    case None =>
      match Runner.New(taskName, scripts)
      case Failure(message) => Failure(HttpError(404, message, false))
      case Success(_) => Success(Lookup(store, taskName))
  }

  // ---------------------------------------------------------------------
  // Server state and request steps
  // ---------------------------------------------------------------------

  /** The process-wide lock, the status store, and the scripts that exist. */
  datatype ServerState = ServerState(locked: bool, store: Store, scripts: set<string>)

  /** What the caller of the trigger endpoint sees: an error response, or
      the chunks streamed so far and how far the run got. */
  datatype Response =
    | Refused(error: HttpError)
    | Stream(chunks: seq<string>, outcome: Runner.Outcome)

  datatype Step = Step(response: Response, state: ServerState)

  /** Pulling the stream of a trigger reply against the state as it is when
      the stream starts: the run's effects are applied to the lock and the
      store. A rejected reply changes nothing. */
  function Start(s: ServerState, reply: TriggerReply, env: Runner.Env): Step {
    match reply
    case Rejected(e) => Step(Refused(e), s)
    case Streaming(runner, args) =>
      var res := Runner.Run(runner, args, s.locked, env);
      Step(Stream(Runner.ChunksOf(res.events), res.outcome),
           ServerState(Runner.LockAfter(s.locked, res.events),
                       Runner.StoreAfter(s.store, res.events),
                       s.scripts))
  }

  /** A trigger request whose stream is pulled straight away. */
  function Trigger(s: ServerState, credentials: string, taskName: string,
                   request: TaskRequest, env: Runner.Env): Step {
    Start(s, RunTask(credentials, taskName, request, s.locked, s.scripts), env)
  }

  /** A status request; it returns no new state. */
  function Status(s: ServerState, credentials: string, taskName: string): Result<RunRecord, HttpError> {
    GetTaskStatus(credentials, taskName, s.store, s.scripts)
  }
}
