/**
 * The scheduler as a step machine. Each function is one synchronous block of the source, which nothing
 * interleaves with: it takes the whole state and gives the state after the block.
 */
module SchedulerSteps {
  import opened Wrappers
  import opened Occurrences
  import opened ScheduleTables

  datatype Policy = Drain | Cancel

  datatype Lifecycle = Idle | Running | Stopping | Stopped

  /** `trim` is the language's string trim; `promptRunner` says whether one is configured. */
  datatype Config = Config(
    concurrency: nat, policy: Policy, wakeIntervalMs: nat, cron: CronParser, trim: string -> string, promptRunner: bool)

  datatype Pending = Pending(schedule: Definition, runId: Id, context: Option<Context>)

  /** One entry of the active map: `settled` once `execute` has ended and only its `finally` callback is due. */
  datatype Execution = Execution(pending: Pending, abort: Option<RunError>, settled: bool)

  /** `stop`: no call yet, waiting for owned work, woken but not resumed, and done. */
  datatype StopPhase = NotAsked | Waiting | Released | Done

  datatype Core = Core(
    lifecycle: Lifecycle,
    pending: seq<Pending>,
    active: map<Id, Execution>,
    owned: set<Id>,
    wake: Option<nat>,
    settlingScans: nat,
    stop: StopPhase,
    tables: Tables)

  /** How a runner's promise settles. */
  datatype Ending = Returned(exitCode: int) | Rejected(message: string)

  datatype Refusal = Stopped | NoSuchSchedule | AlreadyRunning | Invalid | Store(error: StoreError)

  ghost predicate ValidConfig(cfg: Config) {
    cfg.concurrency >= 1 && cfg.wakeIntervalMs >= 1 && SoundParser(cfg.cron)
  }

  function Fresh(stored: Tables): Core {
    Core(Idle, [], map[], {}, None, 0, NotAsked, InterruptRunning(stored))
  }

  // ---------------------------------------------------------------- owner requests

  function Validate(cfg: Config, input: Input): Option<Input> {
    var name := cfg.trim(input.name);
    if name == "" || input.cwd == "" || input.cwd[0] != '/' then None
    else if input.timeoutSeconds < 1 || input.timeoutSeconds > MAX_SAFE_INTEGER then None
    else if !ValidTrigger(cfg.cron, input.trigger) then None
    else if input.payload.Command? && (input.payload.argv == [] || input.payload.argv[0] == "") then None
    else if input.payload.Prompt? && cfg.trim(input.payload.prompt) == "" then None
    else Some(input.(name := name))
  }

  function InitialNextRunAt(cfg: Config, input: Input, nowMs: int): Option<int> {
    if !input.enabled then None
    else if input.trigger.At? then input.trigger.at
    else
      var next := ComputeNextRunAt(cfg.cron, input.trigger, nowMs);
      if next.Success? then next.value else None
  }

  function RequestWake(c: Core, delayMs: nat): Core {
    if c.lifecycle != Lifecycle.Running then c else c.(wake := Some(delayMs))
  }

  function Start(c: Core): Core {
    if c.lifecycle != Idle then c else RequestWake(c.(lifecycle := Lifecycle.Running), 0)
  }

  function Add(cfg: Config, c: Core, id: Id, input: Input, nowMs: int): Result<Core, Refusal> {
    var normalized := Validate(cfg, input);
    if normalized == None then Failure(Invalid)
    else match CreateSchedule(c.tables, id, normalized.value, InitialNextRunAt(cfg, normalized.value, nowMs))
      case Failure(e) => Failure(Store(e))
      case Success(t) => Success(RequestWake(c.(tables := t), 0))
  }

  function Update(cfg: Config, c: Core, id: Id, input: Input, expectedRevision: nat, nowMs: int): Result<Core, Refusal> {
    var normalized := Validate(cfg, input);
    if normalized == None then Failure(Invalid)
    else match UpdateSchedule(c.tables, id, normalized.value, expectedRevision, InitialNextRunAt(cfg, normalized.value, nowMs))
      case Failure(e) => Failure(Store(e))
      case Success(t) => Success(RequestWake(c.(tables := t), 0))
  }

  function Remove(c: Core, id: Id): Core {
    if !Live(c.tables, id) then c else RequestWake(c.(tables := DeleteSchedule(c.tables, id)), 0)
  }

  function RunNow(cfg: Config, c: Core, id: Id, runId: Id, cwdExists: string -> bool): Result<Core, Refusal> {
    if c.lifecycle.Stopping? || c.lifecycle.Stopped? then Failure(Refusal.Stopped)
    else
      var schedule := ScheduleById(c.tables, id);
      if schedule == None then Failure(NoSuchSchedule)
      else if id in c.owned then Failure(AlreadyRunning)
      else match CreateRun(c.tables, runId, schedule.value)
        case Failure(e) => Failure(Store(e))
        case Success(t) => Success(Pump(cfg, Enqueue(c, t, Pending(schedule.value, runId, None)), cwdExists))
  }

  function Enqueue(c: Core, t: Tables, p: Pending): Core {
    c.(pending := c.pending + [p], owned := c.owned + {p.schedule.id}, tables := t)
  }

  // ---------------------------------------------------------------- dispatch

  predicate MayDispatch(cfg: Config, lifecycle: Lifecycle) {
    !lifecycle.Stopped? && (!lifecycle.Stopping? || cfg.policy == Drain)
  }

  function Pump(cfg: Config, c: Core, cwdExists: string -> bool): Core {
    if !MayDispatch(cfg, c.lifecycle) then c else ReleaseIfIdle(DispatchAll(cfg, c, cwdExists))
  }

  predicate CanDispatch(cfg: Config, c: Core) {
    |c.active| < cfg.concurrency && |c.pending| > 0
  }

  function DispatchAll(cfg: Config, c: Core, cwdExists: string -> bool): Core
    decreases |c.pending|
  {
    if CanDispatch(cfg, c) then DispatchAll(cfg, Dispatch(cfg, c, cwdExists), cwdExists) else c
  }

  /** The head of the queue starts; `execute` may already end it before it is put in the active map. */
  function Dispatch(cfg: Config, c: Core, cwdExists: string -> bool): Core
    requires c.pending != []
  {
    var p := c.pending[0];
    var refusal := StartRefusal(cfg, p.schedule, cwdExists);
    var tables := if refusal == None then c.tables else Finished(c.tables, p.runId, Outcome(Failed, None, refusal));
    c.(pending := c.pending[1..],
       active := c.active[p.runId := Execution(p, None, refusal.Some?)],
       tables := tables)
  }

  function StartRefusal(cfg: Config, schedule: Definition, cwdExists: string -> bool): Option<RunError> {
    if !cwdExists(schedule.cwd) then Some(CwdMissing(schedule.cwd))
    else if schedule.payload.Prompt? && !cfg.promptRunner then Some(NoPromptRunner)
    else None
  }

  /** `finishRun` on a row that is not running throws, and changes nothing. */
  function Finished(t: Tables, runId: Id, outcome: Outcome): Tables {
    match FinishRun(t, runId, outcome)
    case Success(t') => t'
    case Failure(_) => t
  }

  function ReleaseIfIdle(c: Core): Core {
    if |c.active| > 0 || |c.pending| > 0 || c.stop != Waiting then c else c.(stop := Released)
  }

  // ---------------------------------------------------------------- the scan

  /** The loop over the due schedules; `false` when a throw left it before its end. */
  ghost function ClaimAll(cfg: Config, c: Core, due: seq<Definition>, nowMs: int, mint: Id -> Id): (Core, bool)
    requires SoundParser(cfg.cron)
    decreases |due|
  {
    if due == [] then (c, true)
    else
      var schedule := due[0];
      if c.lifecycle != Lifecycle.Running || schedule.id in c.owned || schedule.nextRunAt == None then
        ClaimAll(cfg, c, due[1..], nowMs, mint)
      else if !ValidTrigger(cfg.cron, schedule.trigger) then (c, false)
      else match ClaimOne(cfg, c.tables, schedule, nowMs, mint(schedule.id))
        case Failure(_) => (c, false)
        case Success(None) => ClaimAll(cfg, c, due[1..], nowMs, mint)
        case Success(Some(t)) =>
          var p := Pending(schedule, mint(schedule.id), Some(ScanContext(cfg, schedule, nowMs)));
          ClaimAll(cfg, Enqueue(c, t, p), due[1..], nowMs, mint)
  }

  ghost function ScanContext(cfg: Config, schedule: Definition, nowMs: int): Context
    requires SoundParser(cfg.cron) && ValidTrigger(cfg.cron, schedule.trigger) && schedule.nextRunAt.Some?
  {
    var scheduledMs := schedule.nextRunAt.value;
    Context(scheduledMs, if nowMs > scheduledMs then nowMs - scheduledMs else 0,
            Missed(cfg.cron, schedule.trigger, scheduledMs, nowMs))
  }

  ghost function ClaimOne(cfg: Config, t: Tables, schedule: Definition, nowMs: int, runId: Id): Result<Option<Tables>, StoreError>
    requires SoundParser(cfg.cron) && ValidTrigger(cfg.cron, schedule.trigger) && schedule.nextRunAt.Some?
  {
    ClaimScheduledRun(t, runId, schedule, ComputeNextRunAt(cfg.cron, schedule.trigger, nowMs).value,
                      !schedule.trigger.At? && schedule.enabled, ScanContext(cfg, schedule, nowMs))
  }

  ghost function ScanDue(cfg: Config, c: Core, due: seq<Definition>, nowMs: int, mint: Id -> Id, cwdExists: string -> bool): Core
    requires SoundParser(cfg.cron)
  {
    if c.lifecycle != Lifecycle.Running then c
    else
      var (claimed, complete) := ClaimAll(cfg, c, due, nowMs, mint);
      if complete then Pump(cfg, claimed, cwdExists) else claimed
  }

  /** The wake timer's callback, up to the end of `scanDue`. */
  ghost function WakeFires(cfg: Config, c: Core, due: seq<Definition>, nowMs: int, mint: Id -> Id, cwdExists: string -> bool): Core
    requires SoundParser(cfg.cron)
  {
    ScanDue(cfg, c.(wake := None, settlingScans := c.settlingScans + 1), due, nowMs, mint, cwdExists)
  }

  /** The scan promise's `finally`. */
  function ScanSettles(cfg: Config, c: Core): Core
    requires c.settlingScans > 0
  {
    RequestWake(c.(settlingScans := c.settlingScans - 1), cfg.wakeIntervalMs)
  }

  // ---------------------------------------------------------------- the end of an execution

  predicate Executing(c: Core, runId: Id) {
    runId in c.active && !c.active[runId].settled
  }

  function Aborted(e: Execution, reason: RunError): Execution {
    if e.abort.Some? then e else e.(abort := Some(reason))
  }

  function TimesOut(c: Core, runId: Id): Core
    requires Executing(c, runId)
  {
    c.(active := c.active[runId := Aborted(c.active[runId], TimedOut)])
  }

  function OutcomeOf(cfg: Config, lifecycle: Lifecycle, e: Execution, ending: Ending): Outcome {
    var cancelling := lifecycle.Stopping? && cfg.policy == Cancel;
    match ending
    case Returned(code) =>
      if e.abort.Some? then
        if cancelling then Outcome(Interrupted, None, e.abort) else Outcome(Failed, Some(code), e.abort)
      else if code == 0 then Outcome(Completed, Some(0), None)
      else Outcome(Failed, Some(code), Some(Exited(code)))
    case Rejected(message) =>
      Outcome(if e.abort.Some? && cancelling then Interrupted else Failed, None, Some(Thrown(message)))
  }

  function Ends(cfg: Config, c: Core, runId: Id, ending: Ending): Core
    requires Executing(c, runId)
  {
    var e := c.active[runId];
    c.(active := c.active[runId := e.(settled := true)],
       tables := Finished(c.tables, runId, OutcomeOf(cfg, c.lifecycle, e, ending)))
  }

  /** The execution promise's `finally`. */
  function Releases(cfg: Config, c: Core, runId: Id, cwdExists: string -> bool): Core
    requires runId in c.active
  {
    var released := c.(active := c.active - {runId}, owned := c.owned - {c.active[runId].pending.schedule.id});
    RequestWake(ReleaseIfIdle(Pump(cfg, released, cwdExists)), 0)
  }

  // ---------------------------------------------------------------- stop

  function InterruptQueued(c: Core): Core
    decreases |c.pending|
  {
    if c.pending == [] then c
    else
      var p := c.pending[0];
      InterruptQueued(c.(pending := c.pending[1..], owned := c.owned - {p.schedule.id},
                         tables := Finished(c.tables, p.runId, Outcome(Interrupted, None, Some(StoppedBeforeExecution)))))
  }

  function AbortActive(c: Core): Core {
    c.(active := map r | r in c.active :: Aborted(c.active[r], SchedulerStopped))
  }

  function Stop(cfg: Config, c: Core, cwdExists: string -> bool): Core {
    if c.stop != NotAsked then c
    else
      var stopping := c.(lifecycle := Stopping, wake := None);
      var resolved := if cfg.policy == Cancel then AbortActive(InterruptQueued(stopping)) else Pump(cfg, stopping, cwdExists);
      resolved.(stop := if |resolved.active| == 0 && |resolved.pending| == 0 then Released else Waiting)
  }

  /** `stop` resumes after the wait. */
  function StopResumes(c: Core): Core
    requires c.stop == Released
  {
    c.(lifecycle := Lifecycle.Stopped, stop := Done)
  }

  // ---------------------------------------------------------------- every interleaving

  datatype Action =
    | DoStart
    | DoAdd(id: Id, input: Input, nowMs: int)
    | DoUpdate(id: Id, input: Input, expectedRevision: nat, nowMs: int)
    | DoRemove(id: Id)
    | DoRunNow(id: Id, runId: Id, cwdExists: string -> bool)
    | DoWake(due: seq<Definition>, nowMs: int, mint: Id -> Id, cwdExists: string -> bool)
    | DoScanSettles
    | DoTimeOut(runId: Id)
    | DoEnd(runId: Id, ending: Ending)
    | DoRelease(runId: Id, cwdExists: string -> bool)
    | DoStop(cwdExists: string -> bool)
    | DoStopResumes

  ghost predicate Enabled(c: Core, action: Action) {
    match action
    case DoWake(due, nowMs, _, _) => c.wake.Some? && IsDueList(c.tables, nowMs, due)
    case DoScanSettles => c.settlingScans > 0
    case DoTimeOut(runId) => Executing(c, runId)
    case DoEnd(runId, _) => Executing(c, runId)
    case DoRelease(runId, _) => runId in c.active && c.active[runId].settled
    case DoStopResumes => c.stop == Released
    case _ => true
  }

  function Accepted(c: Core, result: Result<Core, Refusal>): Core {
    if result.Success? then result.value else c
  }

  ghost function Step(cfg: Config, c: Core, action: Action): Core
    requires SoundParser(cfg.cron) && Enabled(c, action)
  {
    match action
    case DoStart => Start(c)
    case DoAdd(id, input, nowMs) => Accepted(c, Add(cfg, c, id, input, nowMs))
    case DoUpdate(id, input, expectedRevision, nowMs) => Accepted(c, Update(cfg, c, id, input, expectedRevision, nowMs))
    case DoRemove(id) => Remove(c, id)
    case DoRunNow(id, runId, cwdExists) => Accepted(c, RunNow(cfg, c, id, runId, cwdExists))
    case DoWake(due, nowMs, mint, cwdExists) => WakeFires(cfg, c, due, nowMs, mint, cwdExists)
    case DoScanSettles => ScanSettles(cfg, c)
    case DoTimeOut(runId) => TimesOut(c, runId)
    case DoEnd(runId, ending) => Ends(cfg, c, runId, ending)
    case DoRelease(runId, cwdExists) => Releases(cfg, c, runId, cwdExists)
    case DoStop(cwdExists) => Stop(cfg, c, cwdExists)
    case DoStopResumes => StopResumes(c)
  }

  /** `trace` is a run of the scheduler: each state follows from the one before by some step. */
  ghost predicate IsRun(cfg: Config, trace: seq<Core>, actions: seq<Action>)
    requires SoundParser(cfg.cron)
  {
    && |trace| == |actions| + 1
    && forall i | 0 <= i < |actions| :: Enabled(trace[i], actions[i]) && trace[i + 1] == Step(cfg, trace[i], actions[i])
  }
}
