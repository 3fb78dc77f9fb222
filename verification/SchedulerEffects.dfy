/** What each of the scheduler's other steps does, said of the state before and after it. */
module SchedulerEffects {
  import opened Wrappers
  import opened Occurrences
  import opened ScheduleTables
  import opened ClaimHistory
  import opened SchedulerSteps
  import opened SchedulerInvariants
  import opened SchedulerRuns
  import opened SchedulerTraces
  import opened SchedulerScans

  // ---------------------------------------------------------------- the owner's schedules

  /** What the owner may send: a name, an absolute directory, a time limit in range, and a trigger and a payload that can run. */
  ghost predicate Acceptable(cfg: Config, input: Input) {
    && cfg.trim(input.name) != ""
    && input.cwd != "" && input.cwd[0] == '/'
    && 1 <= input.timeoutSeconds <= MAX_SAFE_INTEGER
    && ValidTrigger(cfg.cron, input.trigger)
    && match input.payload
       case Command(argv) => argv != [] && argv[0] != ""
       case Prompt(prompt) => cfg.trim(prompt) != ""
  }

  /** The due time of a new definition: its least occurrence after now; an `at` keeps its time, and a disabled one has none. */
  ghost predicate FirstDue(cfg: Config, input: Input, nowMs: int, due: Option<int>)
    requires ValidTrigger(cfg.cron, input.trigger)
  {
    if !input.enabled then due == None
    else if input.trigger.At? then due.Some? && Occurs(cfg.cron, input.trigger, due.value)
    else IsNextOccurrence(cfg.cron, input.trigger, nowMs, due)
  }

  /** `t'` is `t` but for the row of `id`, which is live and holds what was sent, under its trimmed name. */
  ghost predicate Stores(cfg: Config, t: Tables, t': Tables, id: Id, input: Input, revision: nat, nowMs: int)
    requires ValidTrigger(cfg.cron, input.trigger)
  {
    && t'.runs == t.runs && Live(t', id)
    && t'.schedules.Keys == t.schedules.Keys + {id}
    && (forall other | other in t.schedules && other != id :: t'.schedules[other] == t.schedules[other])
    && var def := t'.schedules[id].def;
    && def == Definition(id, cfg.trim(input.name), input.enabled, input.trigger, input.payload, input.cwd, input.timeoutSeconds,
                         revision, def.nextRunAt)
    && FirstDue(cfg, input, nowMs, def.nextRunAt)
  }

  ghost predicate NameIsFree(t: Tables, name: string, except: Option<Id>) {
    forall id | id in t.schedules && t.schedules[id].def.name == name :: except == Some(id)
  }

  /** A step that the running scheduler answers with a scan as soon as may be. */
  ghost predicate WakesAtOnce(c: Core, c': Core) {
    c'.wake == if c.lifecycle == Lifecycle.Running then Some(0) else c.wake
  }

  lemma {:induction false} InitialIsFirst(cfg: Config, input: Input, nowMs: int)
    requires ValidConfig(cfg) && ValidTrigger(cfg.cron, input.trigger)
    ensures FirstDue(cfg, input, nowMs, InitialNextRunAt(cfg, input, nowMs))
  {
    NextIsLeastOccurrence(cfg.cron, input.trigger, nowMs);
  }

  lemma {:induction false} ValidateAccepts(cfg: Config, input: Input)
    ensures Validate(cfg, input) == if Acceptable(cfg, input) then Some(input.(name := cfg.trim(input.name))) else None
  {
  }

  /** A new schedule is stored as it was sent, due at its first occurrence, exactly when it is acceptable and new. */
  lemma {:induction false} AddStoresWhatWasSent(cfg: Config, c: Core, id: Id, input: Input, nowMs: int)
    requires ValidConfig(cfg)
    ensures var c' := Step(cfg, c, DoAdd(id, input, nowMs));
            if Acceptable(cfg, input) && id !in c.tables.schedules && NameIsFree(c.tables, cfg.trim(input.name), None) then
              && Stores(cfg, c.tables, c'.tables, id, input, 1, nowMs)
              && WakesAtOnce(c, c') && c' == c.(tables := c'.tables, wake := c'.wake)
            else c' == c
  {
    ValidateAccepts(cfg, input);
    hide Validate, Acceptable, FirstDue, InitialNextRunAt;
    if Acceptable(cfg, input) {
      assert ValidTrigger(cfg.cron, input.trigger) by { AcceptableTrigger(cfg, input); }
      InitialIsFirst(cfg, input.(name := cfg.trim(input.name)), nowMs);
      FirstDueByTrigger(cfg, input, nowMs);
    }
  }

  lemma AcceptableTrigger(cfg: Config, input: Input)
    requires Acceptable(cfg, input)
    ensures ValidTrigger(cfg.cron, input.trigger)
  {
  }

  lemma FirstDueByTrigger(cfg: Config, input: Input, nowMs: int)
    requires ValidTrigger(cfg.cron, input.trigger)
    ensures forall name, due | FirstDue(cfg, input.(name := name), nowMs, due) :: FirstDue(cfg, input, nowMs, due)
  {
  }

  /** An update replaces the live row it expects, begins anew from now, and is refused otherwise. */
  lemma {:induction false} UpdateStoresWhatWasSent(cfg: Config, c: Core, id: Id, input: Input, expected: nat, nowMs: int)
    requires ValidConfig(cfg)
    ensures var c' := Step(cfg, c, DoUpdate(id, input, expected, nowMs));
            if Acceptable(cfg, input) && Live(c.tables, id) && c.tables.schedules[id].def.revision == expected
               && NameIsFree(c.tables, cfg.trim(input.name), Some(id)) then
              && Stores(cfg, c.tables, c'.tables, id, input, expected + 1, nowMs)
              && WakesAtOnce(c, c') && c' == c.(tables := c'.tables, wake := c'.wake)
            else c' == c
  {
    ValidateAccepts(cfg, input);
    hide Validate, Acceptable, FirstDue, InitialNextRunAt;
    if Acceptable(cfg, input) {
      assert ValidTrigger(cfg.cron, input.trigger) by { AcceptableTrigger(cfg, input); }
      InitialIsFirst(cfg, input.(name := cfg.trim(input.name)), nowMs);
      FirstDueByTrigger(cfg, input, nowMs);
    }
  }

  /** No one can find, list or claim the schedule. */
  ghost predicate Gone(t: Tables, id: Id) {
    && id in t.schedules && ScheduleById(t, id) == None
    && (forall nowMs :: !IsDue(t, nowMs, id))
    && (forall d: Definition, scheduledFor | d.id == id :: !Claimable(t, d, scheduledFor))
  }

  /** A removal takes a live schedule away, leaves every run and every other schedule, and changes nothing else. */
  lemma RemoveTakesItAway(cfg: Config, c: Core, id: Id)
    requires SoundParser(cfg.cron)
    ensures var c' := Step(cfg, c, DoRemove(id));
            if Live(c.tables, id) then
              && Gone(c'.tables, id) && c'.tables.runs == c.tables.runs
              && c'.tables.schedules.Keys == c.tables.schedules.Keys
              && (forall other | other in c.tables.schedules && other != id :: c'.tables.schedules[other] == c.tables.schedules[other])
              && WakesAtOnce(c, c') && c' == c.(tables := c'.tables, wake := c'.wake)
            else c' == c
  {
  }

  lemma GoneIsDeleted(t: Tables, id: Id)
    ensures Gone(t, id) <==> id in t.schedules && t.schedules[id].deleted
  {
  }

  lemma {:induction false} ClaimAllKeepsDeleted(cfg: Config, c: Core, due: seq<Definition>, nowMs: int, mint: Id -> Id, id: Id)
    requires SoundParser(cfg.cron) && id in c.tables.schedules && c.tables.schedules[id].deleted
    ensures var t := ClaimAll(cfg, c, due, nowMs, mint).0.tables;
            id in t.schedules && t.schedules[id] == c.tables.schedules[id]
    decreases |due|
  {
    if due != [] {
      var (schedule, rest) := (due[0], due[1..]);
      if c.lifecycle != Lifecycle.Running || schedule.id in c.owned || schedule.nextRunAt == None {
        ClaimAllKeepsDeleted(cfg, c, rest, nowMs, mint, id);
      } else if ValidTrigger(cfg.cron, schedule.trigger) {
        var claim := ClaimOne(cfg, c.tables, schedule, nowMs, mint(schedule.id));
        if claim == Success(None) {
          ClaimAllKeepsDeleted(cfg, c, rest, nowMs, mint, id);
        } else if claim.Success? {
          var p := Pending(schedule, mint(schedule.id), Some(ScanContext(cfg, schedule, nowMs)));
          ClaimAllKeepsDeleted(cfg, Enqueue(c, claim.value.value, p), rest, nowMs, mint, id);
        }
      }
    }
  }

  lemma {:induction false} DispatchAllKeepsSchedules(cfg: Config, c: Core, cwdExists: string -> bool)
    ensures DispatchAll(cfg, c, cwdExists).tables.schedules == c.tables.schedules
    decreases |c.pending|
  {
    if CanDispatch(cfg, c) {
      hide StartRefusal;
      DispatchAllKeepsSchedules(cfg, Dispatch(cfg, c, cwdExists), cwdExists);
    }
  }

  lemma {:induction false} PumpKeepsSchedules(cfg: Config, c: Core, cwdExists: string -> bool)
    ensures Pump(cfg, c, cwdExists).tables.schedules == c.tables.schedules
  {
    hide DispatchAll;
    DispatchAllKeepsSchedules(cfg, c, cwdExists);
  }

  lemma {:induction false} InterruptKeepsSchedules(c: Core)
    ensures InterruptQueued(c).tables.schedules == c.tables.schedules
    decreases |c.pending|
  {
    if c.pending != [] {
      var (p, outcome) := (c.pending[0], Outcome(Interrupted, None, Some(StoppedBeforeExecution)));
      InterruptKeepsSchedules(c.(pending := c.pending[1..], owned := c.owned - {p.schedule.id}, tables := Finished(c.tables, p.runId, outcome)));
    }
  }

  /** Only the owner's requests and the scan's claims change schedule rows. */
  lemma {:induction false} OthersKeepSchedules(cfg: Config, c: Core, action: Action)
    requires ValidConfig(cfg) && Enabled(c, action)
    requires !action.DoAdd? && !action.DoUpdate? && !action.DoRemove? && !action.DoWake?
    ensures Step(cfg, c, action).tables.schedules == c.tables.schedules
  {
    hide Pump, InterruptQueued, OutcomeOf;
    match action
    case DoRunNow(id, runId, cwdExists) =>
      var schedule := ScheduleById(c.tables, id);
      if schedule.Some? && CreateRun(c.tables, runId, schedule.value).Success? {
        var t := CreateRun(c.tables, runId, schedule.value).value;
        PumpKeepsSchedules(cfg, Enqueue(c, t, Pending(schedule.value, runId, None)), cwdExists);
      }
    case DoRelease(runId, cwdExists) =>
      PumpKeepsSchedules(cfg, c.(active := c.active - {runId}, owned := c.owned - {c.active[runId].pending.schedule.id}), cwdExists);
    case DoStop(cwdExists) =>
      PumpKeepsSchedules(cfg, c.(lifecycle := Stopping, wake := None), cwdExists);
      InterruptKeepsSchedules(c.(lifecycle := Stopping, wake := None));
    case _ =>
  }

  lemma {:induction false} StepKeepsGone(cfg: Config, c: Core, action: Action, id: Id)
    requires ValidConfig(cfg) && Inv(cfg, c) && Enabled(c, action) && Gone(c.tables, id)
    ensures Gone(Step(cfg, c, action).tables, id)
    ensures forall r | r in Step(cfg, c, action).tables.runs && Step(cfg, c, action).tables.runs[r].scheduleId == id :: r in c.tables.runs
  {
    hide Inv, Step, Enabled, Gone;
    GoneIsDeleted(c.tables, id);
    GoneIsDeleted(Step(cfg, c, action).tables, id);
    StepKeepsDeleted(cfg, c, action, id);
    forall r | r in Step(cfg, c, action).tables.runs && Step(cfg, c, action).tables.runs[r].scheduleId == id
      ensures r in c.tables.runs
    {
      if r !in c.tables.runs {
        NewRunsHoldTheRow(cfg, c, action, r);
      }
    }
  }

  lemma {:induction false} StepKeepsDeleted(cfg: Config, c: Core, action: Action, id: Id)
    requires ValidConfig(cfg) && Enabled(c, action) && id in c.tables.schedules && c.tables.schedules[id].deleted
    ensures var t := Step(cfg, c, action).tables; id in t.schedules && t.schedules[id].deleted
  {
    hide Pump, ClaimAll, IsDueList, Validate, InitialNextRunAt;
    match action
    case DoAdd(_, _, _) =>
    case DoUpdate(_, _, _, _) =>
    case DoRemove(_) =>
    case DoWake(due, nowMs, mint, cwdExists) =>
      var begun := c.(wake := None, settlingScans := c.settlingScans + 1);
      ClaimAllKeepsDeleted(cfg, begun, due, nowMs, mint, id);
      PumpKeepsSchedules(cfg, ClaimAll(cfg, begun, due, nowMs, mint).0, cwdExists);
    case _ =>
      hide Step;
      OthersKeepSchedules(cfg, c, action);
  }

  /** A removed schedule stays away along every run, and no run of it is created any more. */
  lemma {:induction false} RemovedStaysGone(cfg: Config, trace: seq<Core>, actions: seq<Action>, i: nat, n: nat, id: Id)
    requires ValidConfig(cfg) && IsRun(cfg, trace, actions) && i <= n < |trace| && Inv(cfg, trace[i]) && Gone(trace[i].tables, id)
    ensures Gone(trace[n].tables, id)
    ensures forall r | r in trace[n].tables.runs && trace[n].tables.runs[r].scheduleId == id :: r in trace[i].tables.runs
    decreases n - i
  {
    hide Inv, Step, Enabled, Gone, TablesMove;
    if i < n {
      RemovedStaysGone(cfg, trace, actions, i, n - 1, id);
      RowsOnlyMoveForward(cfg, trace, actions, i, n - 1);
      StepKeepsGone(cfg, trace[n - 1], actions[n - 1], id);
      SameScheduleAsBefore(cfg, trace[n - 1], actions[n - 1]);
    }
  }

  lemma {:induction false} SameScheduleAsBefore(cfg: Config, c: Core, action: Action)
    requires ValidConfig(cfg) && Inv(cfg, c) && Enabled(c, action)
    ensures forall r | r in c.tables.runs ::
              r in Step(cfg, c, action).tables.runs && Step(cfg, c, action).tables.runs[r].scheduleId == c.tables.runs[r].scheduleId
  {
    hide Inv, Step, Enabled;
    StepKeepsInv(cfg, c, action);
  }

  // ---------------------------------------------------------------- a manual run

  ghost predicate MayRunNow(c: Core, id: Id, runId: Id) {
    !ShuttingDown(c) && Live(c.tables, id) && id !in c.owned && runId !in c.tables.runs
  }

  lemma {:induction false} RunNowIsPump(cfg: Config, c: Core, id: Id, runId: Id, cwdExists: string -> bool) returns (queued: Core)
    requires ValidConfig(cfg) && Inv(cfg, c)
    ensures !MayRunNow(c, id, runId) ==> Step(cfg, c, DoRunNow(id, runId, cwdExists)) == c
    ensures MayRunNow(c, id, runId) ==>
              var d := c.tables.schedules[id].def;
              && d.id == id && CreateRun(c.tables, runId, d).Success?
              && queued == Enqueue(c, CreateRun(c.tables, runId, d).value, Pending(d, runId, None))
              && Step(cfg, c, DoRunNow(id, runId, cwdExists)) == Pump(cfg, queued, cwdExists)
  {
    queued := c;
    hide Pump, Inv;
    if Live(c.tables, id) {
      KeysAreTheirs(cfg, c, id);
      var d := c.tables.schedules[id].def;
      if MayRunNow(c, id, runId) {
        queued := Enqueue(c, CreateRun(c.tables, runId, d).value, Pending(d, runId, None));
      }
    }
  }

  lemma OneMoreHeld(c: Core, t: Tables, p: Pending)
    ensures forall e :: Holds(Enqueue(c, t, p), e) <==> Holds(c, e) || e == p
  {
  }

  /**
   * A manual run is taken exactly when the scheduler is not stopping and the schedule is live and not owned (and the
   * id unused); then one run of the row as it is joins the work, and no schedule changes.
   */
  lemma {:induction false} RunNowRunsTheRow(cfg: Config, c: Core, id: Id, runId: Id, cwdExists: string -> bool)
    requires ValidConfig(cfg) && Inv(cfg, c)
    ensures var c' := Step(cfg, c, DoRunNow(id, runId, cwdExists));
            if !ShuttingDown(c) && Live(c.tables, id) && id !in c.owned && runId !in c.tables.runs then
              var d := c.tables.schedules[id].def;
              && c'.tables.schedules == c.tables.schedules && c'.owned == c.owned + {id}
              && c'.tables.runs.Keys == c.tables.runs.Keys + {runId}
              && var run := c'.tables.runs[runId];
              && !run.scheduled && run.scheduledFor == None && run.context == None && run.scheduleId == id && run.claimed == d
              && run.payload == d.payload && run.cwd == d.cwd && run.timeoutSeconds == d.timeoutSeconds
              && (forall e :: Holds(c', e) <==> Holds(c, e) || e == Pending(d, runId, None))
            else c' == c
  {
    var queued := RunNowIsPump(cfg, c, id, runId, cwdExists);
    if MayRunNow(c, id, runId) {
      var d := c.tables.schedules[id].def;
      var t := CreateRun(c.tables, runId, d).value;
      hide Inv, Holds, Pump, Step, Consistent, SameRuns, CreateRun;
      OneMoreHeld(c, t, Pending(d, runId, None));
      ManualRunIsSound(cfg, c, d, runId, t);
      PumpKeepsHeld(cfg, queued, cwdExists);
      PumpKeepsRuns(cfg, queued, cwdExists);
      ManualRowStands(c.tables, t, Pump(cfg, queued, cwdExists).tables, d, runId);
    }
  }

  lemma {:induction false} ManualRowStands(before: Tables, t: Tables, after: Tables, d: Definition, runId: Id)
    requires CreateRun(before, runId, d) == Success(t) && SameRuns(t, after)
    ensures t.schedules == before.schedules && after.runs.Keys == before.runs.Keys + {runId}
    ensures var run := after.runs[runId];
            && !run.scheduled && run.scheduledFor == None && run.context == None && run.scheduleId == d.id && run.claimed == d
            && run.payload == d.payload && run.cwd == d.cwd && run.timeoutSeconds == d.timeoutSeconds
  {
  }

  lemma {:induction false} ManualRunIsSound(cfg: Config, c: Core, d: Definition, runId: Id, t: Tables)
    requires ValidConfig(cfg) && Inv(cfg, c) && CreateRun(c.tables, runId, d) == Success(t)
    requires Live(c.tables, d.id) && c.tables.schedules[d.id].def == d && d.id !in c.owned
    ensures Consistent(Enqueue(c, t, Pending(d, runId, None)))
  {
    hide HistoryKept, Consistent;
    EnqueueKeepsConsistent(c, t, Pending(d, runId, None));
  }

  // ---------------------------------------------------------------- dispatch

  /** A run in the active map just after its dispatch: executing, unless it could not be started and has failed for that reason. */
  ghost predicate JustStarted(cfg: Config, t: Tables, e: Execution, cwdExists: string -> bool) {
    var (d, r) := (e.pending.schedule, e.pending.runId);
    && e.abort == None && r in t.runs
    && (e.settled <==> !cwdExists(d.cwd) || (d.payload.Prompt? && !cfg.promptRunner))
    && (t.runs[r].status == RunStatus.Running <==> !e.settled)
    && (e.settled ==>
          && t.runs[r].status == RunStatus.Failed && t.runs[r].exitCode == None
          && t.runs[r].error == Some(if !cwdExists(d.cwd) then CwdMissing(d.cwd) else NoPromptRunner))
  }

  lemma {:induction false} HeadStarts(cfg: Config, c: Core, cwdExists: string -> bool)
    requires Consistent(c) && c.pending != []
    ensures var (p, c') := (c.pending[0], Dispatch(cfg, c, cwdExists));
            && c'.active == c.active[p.runId := c'.active[p.runId]] && c'.active[p.runId].pending == p
            && JustStarted(cfg, c'.tables, c'.active[p.runId], cwdExists)
            && (forall r | r in c.tables.runs && r != p.runId :: r in c'.tables.runs && c'.tables.runs[r] == c.tables.runs[r])
            && c'.pending == c.pending[1..]
  {
    var p := c.pending[0];
    assert p in c.pending && Holds(c, p) && HasRow(c.tables, p) && Queued(c, p.runId);
  }

  lemma {:induction false} StartedRunsStay(cfg: Config, c: Core, cwdExists: string -> bool, r: Id)
    requires Consistent(c) && r in c.active && r in c.tables.runs
    ensures var c' := DispatchAll(cfg, c, cwdExists);
            r in c'.active && c'.active[r] == c.active[r] && r in c'.tables.runs && c'.tables.runs[r] == c.tables.runs[r]
    decreases |c.pending|
  {
    if CanDispatch(cfg, c) {
      NotActiveWhileQueued(c, c.pending[0]);
      hide Consistent, JustStarted, Dispatch;
      HeadStarts(cfg, c, cwdExists);
      DispatchKeepsConsistent(cfg, c, cwdExists);
      StartedRunsStay(cfg, Dispatch(cfg, c, cwdExists), cwdExists, r);
    }
  }

  lemma {:induction false} DispatchedRunsStart(cfg: Config, c: Core, cwdExists: string -> bool, r: Id)
    requires Consistent(c) && r in DispatchAll(cfg, c, cwdExists).active && r !in c.active
    ensures var c' := DispatchAll(cfg, c, cwdExists);
            c'.active[r].pending in c.pending && c'.active[r].pending.runId == r
            && JustStarted(cfg, c'.tables, c'.active[r], cwdExists)
    decreases |c.pending|
  {
    if CanDispatch(cfg, c) {
      var next := Dispatch(cfg, c, cwdExists);
      hide Consistent, Dispatch, JustStarted;
      HeadStarts(cfg, c, cwdExists);
      DispatchKeepsConsistent(cfg, c, cwdExists);
      if r == c.pending[0].runId {
        StartedStands(cfg, next.tables, DispatchAll(cfg, next, cwdExists).tables, next.active[r], cwdExists) by {
          ActiveHasRow(next, r);
          StartedRunsStay(cfg, next, cwdExists, r);
        }
        StartedRunsStay(cfg, next, cwdExists, r) by { ActiveHasRow(next, r); }
      } else {
        DispatchedRunsStart(cfg, next, cwdExists, r);
      }
    }
  }

  lemma StartedStands(cfg: Config, t: Tables, t': Tables, e: Execution, cwdExists: string -> bool)
    requires JustStarted(cfg, t, e, cwdExists) && e.pending.runId in t.runs
    requires e.pending.runId in t'.runs && t'.runs[e.pending.runId] == t.runs[e.pending.runId]
    ensures JustStarted(cfg, t', e, cwdExists)
  {
  }

  lemma ActiveHasRow(c: Core, r: Id)
    requires Consistent(c) && r in c.active
    ensures r in c.tables.runs
  {
    assert Holds(c, c.active[r].pending) && HasRow(c.tables, c.active[r].pending);
  }

  lemma {:induction false} PumpedRunsStart(cfg: Config, c: Core, cwdExists: string -> bool, r: Id)
    requires Consistent(c) && r in Pump(cfg, c, cwdExists).active && r !in c.active
    ensures var c' := Pump(cfg, c, cwdExists); JustStarted(cfg, c'.tables, c'.active[r], cwdExists)
  {
    hide Consistent, DispatchAll, JustStarted;
    DispatchedRunsStart(cfg, c, cwdExists, r);
  }

  lemma {:induction false} ScanStaysConsistent(cfg: Config, c: Core, due: seq<Definition>, nowMs: int, mint: Id -> Id) returns (claimed: Core)
    requires ValidConfig(cfg) && Inv(cfg, c) && IsDueList(c.tables, nowMs, due)
    ensures claimed == ClaimAll(cfg, c.(wake := None, settlingScans := c.settlingScans + 1), due, nowMs, mint).0
    ensures Consistent(claimed) && claimed.active == c.active
  {
    var begun := c.(wake := None, settlingScans := c.settlingScans + 1);
    DueIdsDiffer(c.tables, nowMs, due);
    hide HistoryKept, Consistent, CompletedCleanly, ClaimAll;
    var extra := ClaimAllAppends(cfg, begun, due, nowMs, mint);
    TimersOnly(cfg, c, begun);
    ClaimAllKeepsSound(cfg, begun, due, nowMs, mint);
    claimed := ClaimAll(cfg, begun, due, nowMs, mint).0;
  }

  lemma {:induction false} WakeStarts(cfg: Config, c: Core, due: seq<Definition>, nowMs: int, mint: Id -> Id, cwdExists: string -> bool, r: Id)
    requires ValidConfig(cfg) && Inv(cfg, c) && IsDueList(c.tables, nowMs, due)
    requires var c' := WakeFires(cfg, c, due, nowMs, mint, cwdExists); r in c'.active && r !in c.active
    ensures var c' := WakeFires(cfg, c, due, nowMs, mint, cwdExists); JustStarted(cfg, c'.tables, c'.active[r], cwdExists)
  {
    hide Inv, Consistent, Pump, JustStarted, ClaimAll, IsDueList;
    var claimed := ScanStaysConsistent(cfg, c, due, nowMs, mint);
    assert WakeFires(cfg, c, due, nowMs, mint, cwdExists) == Pump(cfg, claimed, cwdExists);
    PumpedRunsStart(cfg, claimed, cwdExists, r);
  }

  /** Every run that any step puts in the active map executes, or has failed because its directory or its runner is missing. */
  lemma {:induction false} NewlyActiveHasStarted(cfg: Config, c: Core, action: Action, r: Id)
    requires ValidConfig(cfg) && Inv(cfg, c) && Enabled(c, action)
    requires r in Step(cfg, c, action).active && r !in c.active
    ensures action.DoRunNow? || action.DoWake? || action.DoRelease? || action.DoStop?
    ensures var c' := Step(cfg, c, action); JustStarted(cfg, c'.tables, c'.active[r], action.cwdExists)
  {
    hide Inv, WakeFires, Pump, JustStarted, IsDueList, InterruptQueued, Validate, Finished, OutcomeOf;
    match action
    case DoRunNow(id, runId, cwdExists) =>
      var d := ScheduleById(c.tables, id).value;
      KeysAreTheirs(cfg, c, id);
      ManualRunIsSound(cfg, c, d, runId, CreateRun(c.tables, runId, d).value);
      PumpedRunsStart(cfg, Enqueue(c, CreateRun(c.tables, runId, d).value, Pending(d, runId, None)), cwdExists, r);
    case DoWake(due, nowMs, mint, cwdExists) =>
      WakeStarts(cfg, c, due, nowMs, mint, cwdExists, r);
    case DoRelease(runId, cwdExists) =>
      var released := c.(active := c.active - {runId}, owned := c.owned - {c.active[runId].pending.schedule.id});
      ReleasedStaysConsistent(cfg, c, runId);
      PumpedRunsStart(cfg, released, cwdExists, r);
    case DoStop(cwdExists) =>
      var stopping := c.(lifecycle := Stopping, wake := None);
      InterruptQueuedEmpties(stopping);
      StoppingIsConsistent(cfg, c, stopping);
      if cfg.policy == Drain {
        PumpedRunsStart(cfg, stopping, cwdExists, r);
      }
    case _ =>
  }

  lemma StoppingIsConsistent(cfg: Config, c: Core, stopping: Core)
    requires Inv(cfg, c) && stopping == c.(lifecycle := Stopping, wake := None)
    ensures Consistent(stopping)
  {
    hide HistoryKept, Consistent;
    TimersOnly(cfg, c, stopping);
  }

  // ---------------------------------------------------------------- the end of an execution

  ghost predicate Cancelling(cfg: Config, c: Core) {
    c.lifecycle.Stopping? && cfg.policy == Cancel
  }

  /**
   * How an execution's end is recorded: completed exactly when it returned 0 and was not aborted; interrupted exactly
   * when a cancelling stop is on and it was aborted; failed otherwise, with the first of abort reason and exit code, or
   * with what was thrown.
   */
  lemma {:induction false} EndSettlesTheRun(cfg: Config, c: Core, runId: Id, ending: Ending)
    requires ValidConfig(cfg) && Inv(cfg, c) && Executing(c, runId)
    ensures var (e, c') := (c.active[runId], Step(cfg, c, DoEnd(runId, ending)));
            && runId in c.tables.runs && c'.tables.schedules == c.tables.schedules
            && c'.tables.runs == c.tables.runs[runId := c'.tables.runs[runId]]
            && c' == c.(tables := c'.tables, active := c.active[runId := e.(settled := true)])
            && var (row, row') := (c.tables.runs[runId], c'.tables.runs[runId]);
            && SameSnapshot(row, row')
            && (row'.status == Completed <==> ending == Returned(0) && e.abort == None)
            && (row'.status == Interrupted <==> Cancelling(cfg, c) && e.abort.Some?)
            && (row'.status == RunStatus.Failed <==> (if e.abort.Some? then !Cancelling(cfg, c) else ending != Returned(0)))
            && row'.exitCode == (if ending.Returned? && row'.status != Interrupted then Some(ending.exitCode) else None)
            && row'.error == (match ending
                              case Rejected(message) => Some(Thrown(message))
                              case Returned(code) => if e.abort.Some? then e.abort else if code == 0 then None else Some(Exited(code)))
  {
    var e := c.active[runId].pending;
    assert Holds(c, e) && HasRow(c.tables, e) by { hide HistoryKept; }
    hide HistoryKept, OwnedExactly;
  }

  /** The first reason to abort stays, and only executions of that step's reason get one. */
  lemma {:induction false} TimeOutAborts(cfg: Config, c: Core, runId: Id)
    requires SoundParser(cfg.cron) && Executing(c, runId)
    ensures var (e, c') := (c.active[runId], Step(cfg, c, DoTimeOut(runId)));
            c' == c.(active := c.active[runId := e.(abort := if e.abort.Some? then e.abort else Some(TimedOut))])
  {
  }

  lemma {:induction false} ReleaseIsPump(cfg: Config, c: Core, released: Core, runId: Id, cwdExists: string -> bool)
    requires SoundParser(cfg.cron) && runId in c.active && c.active[runId].settled
    requires released == c.(active := c.active - {runId}, owned := c.owned - {c.active[runId].pending.schedule.id})
    ensures var (c', pumped) := (Step(cfg, c, DoRelease(runId, cwdExists)), Pump(cfg, released, cwdExists));
            && c' == pumped.(stop := c'.stop, wake := c'.wake)
            && c'.wake == if c.lifecycle == Lifecycle.Running then Some(0) else c.wake
  {
    hide Pump;
    PumpKeepsLifecycle(cfg, released, cwdExists);
  }

  /** After the end the slot and the schedule are free again, and another scan comes at once. */
  lemma {:induction false} ReleaseFreesTheSlot(cfg: Config, c: Core, runId: Id, cwdExists: string -> bool)
    requires ValidConfig(cfg) && Inv(cfg, c) && runId in c.active && c.active[runId].settled
    ensures var (e, c') := (c.active[runId].pending, Step(cfg, c, DoRelease(runId, cwdExists)));
            && runId !in c'.active && c'.owned == c.owned - {e.schedule.id}
            && (forall f :: Holds(c', f) <==> Holds(c, f) && f != e)
            && WakesAtOnce(c, c') && c'.tables.schedules == c.tables.schedules
  {
    var released := c.(active := c.active - {runId}, owned := c.owned - {c.active[runId].pending.schedule.id});
    hide Inv, Pump, Consistent, Holds, Step;
    ReleaseIsPump(cfg, c, released, runId, cwdExists);
    ReleasedHolds(cfg, c, released, runId);
    ReleasedStaysConsistent(cfg, c, runId);
    PumpKeepsHeld(cfg, released, cwdExists);
    SameHeld(Pump(cfg, released, cwdExists), Step(cfg, c, DoRelease(runId, cwdExists)));
    ReleasedIsInactive(cfg, c, runId, cwdExists);
  }

  lemma {:induction false} ReleasedHolds(cfg: Config, c: Core, released: Core, runId: Id)
    requires Inv(cfg, c) && runId in c.active
    requires released == c.(active := c.active - {runId}, owned := c.owned - {c.active[runId].pending.schedule.id})
    ensures forall f :: Holds(released, f) <==> Holds(c, f) && f != c.active[runId].pending
  {
    hide HistoryKept, OwnedExactly, RunningExactly;
  }

  lemma {:induction false} ReleasedStaysConsistent(cfg: Config, c: Core, runId: Id)
    requires Inv(cfg, c) && runId in c.active && c.active[runId].settled
    ensures Consistent(c.(active := c.active - {runId}, owned := c.owned - {c.active[runId].pending.schedule.id}))
  {
    hide HistoryKept, Consistent;
    ReleaseKeepsConsistent(c, runId);
  }

  lemma {:induction false} PumpKeepsLifecycle(cfg: Config, c: Core, cwdExists: string -> bool)
    ensures Pump(cfg, c, cwdExists).lifecycle == c.lifecycle && Pump(cfg, c, cwdExists).wake == c.wake
  {
    hide DispatchAll;
    DispatchAllKeepsLifecycle(cfg, c, cwdExists);
  }

  lemma {:induction false} DispatchAllKeepsLifecycle(cfg: Config, c: Core, cwdExists: string -> bool)
    ensures DispatchAll(cfg, c, cwdExists).lifecycle == c.lifecycle && DispatchAll(cfg, c, cwdExists).wake == c.wake
    decreases |c.pending|
  {
    if CanDispatch(cfg, c) {
      DispatchAllKeepsLifecycle(cfg, Dispatch(cfg, c, cwdExists), cwdExists);
    }
  }

  lemma {:induction false} ReleasedIsInactive(cfg: Config, c: Core, runId: Id, cwdExists: string -> bool)
    requires ValidConfig(cfg) && Inv(cfg, c) && runId in c.active && c.active[runId].settled
    requires forall f :: Holds(Step(cfg, c, DoRelease(runId, cwdExists)), f) <==> Holds(c, f) && f != c.active[runId].pending
    ensures runId !in Step(cfg, c, DoRelease(runId, cwdExists)).active
  {
    var (e, c') := (c.active[runId].pending, Step(cfg, c, DoRelease(runId, cwdExists)));
    StepKeepsInv(cfg, c, DoRelease(runId, cwdExists));
    hide Step, HistoryKept, OwnedExactly, RunningExactly;
    if runId in c'.active {
      var f := c'.active[runId].pending;
      assert Holds(c', f) && Holds(c, e);
      RunHeldOnce(c, e, f);
    }
  }

  // ---------------------------------------------------------------- start and stop

  /** Starting an idle scheduler asks for a scan at once; any later start does nothing. */
  lemma StartScansAtOnce(cfg: Config, c: Core)
    requires SoundParser(cfg.cron)
    ensures Step(cfg, c, DoStart) == if c.lifecycle.Idle? then c.(lifecycle := Lifecycle.Running, wake := Some(0)) else c
  {
  }

  /** After a scan, cut short or not, the next one is set for the wake interval. */
  lemma ScanSetsTheNext(cfg: Config, c: Core)
    requires SoundParser(cfg.cron) && c.settlingScans > 0
    ensures var c' := Step(cfg, c, DoScanSettles);
            && c' == c.(settlingScans := c.settlingScans - 1, wake := c'.wake)
            && c'.wake == if c.lifecycle == Lifecycle.Running then Some(cfg.wakeIntervalMs) else c.wake
  {
  }

  /**
   * The first stop ends the scanning. A cancelling one also leaves nothing queued and asks everything active to end,
   * each with its first reason; a draining one aborts nothing and gives up nothing. Neither changes a schedule.
   */
  lemma {:induction false} FirstStopStops(cfg: Config, c: Core, cwdExists: string -> bool)
    requires ValidConfig(cfg) && Inv(cfg, c) && c.stop == NotAsked
    ensures var c' := Step(cfg, c, DoStop(cwdExists));
            && c'.lifecycle.Stopping? && c'.wake == None && c'.tables.schedules == c.tables.schedules
            && (cfg.policy == Cancel ==>
                  && c'.pending == [] && c'.active.Keys == c.active.Keys
                  && forall r | r in c.active ::
                       c'.active[r] == c.active[r].(abort := if c.active[r].abort.Some? then c.active[r].abort else Some(SchedulerStopped)))
            && (cfg.policy == Drain ==>
                  && (forall e :: Holds(c', e) <==> Holds(c, e)) && c'.owned == c.owned
                  && forall r | r in c.active :: r in c'.active && c'.active[r] == c.active[r])
  {
    OthersKeepSchedules(cfg, c, DoStop(cwdExists));
    hide Step, Inv, Holds;
    if cfg.policy == Drain {
      DrainStops(cfg, c, cwdExists);
    } else {
      CancelStops(cfg, c, cwdExists);
    }
  }

  lemma {:induction false} DrainStops(cfg: Config, c: Core, cwdExists: string -> bool)
    requires ValidConfig(cfg) && Inv(cfg, c) && c.stop == NotAsked && cfg.policy == Drain
    ensures var c' := Step(cfg, c, DoStop(cwdExists));
            && c'.lifecycle.Stopping? && c'.wake == None
            && (forall e :: Holds(c', e) <==> Holds(c, e)) && c'.owned == c.owned
            && forall r | r in c.active :: r in c'.active && c'.active[r] == c.active[r]
  {
    var stopping := c.(lifecycle := Stopping, wake := None);
    StoppingIsConsistent(cfg, c, stopping);
    hide Inv, Consistent, Pump, AbortActive, InterruptQueued, Holds;
    PumpKeepsHeld(cfg, stopping, cwdExists);
    PumpKeepsLifecycle(cfg, stopping, cwdExists);
    PumpKeepsActive(cfg, stopping, cwdExists);
    SameHeld(stopping, c);
    SameHeld(Pump(cfg, stopping, cwdExists), Step(cfg, c, DoStop(cwdExists)));
  }

  lemma {:induction false} CancelStops(cfg: Config, c: Core, cwdExists: string -> bool)
    requires ValidConfig(cfg) && Inv(cfg, c) && c.stop == NotAsked && cfg.policy == Cancel
    ensures var c' := Step(cfg, c, DoStop(cwdExists));
            && c'.lifecycle.Stopping? && c'.wake == None
            && c'.pending == [] && c'.active.Keys == c.active.Keys
            && forall r | r in c.active ::
                 c'.active[r] == c.active[r].(abort := if c.active[r].abort.Some? then c.active[r].abort else Some(SchedulerStopped))
  {
    var stopping := c.(lifecycle := Stopping, wake := None);
    InterruptQueuedEmpties(stopping);
    InterruptKeepsTimers(stopping);
    hide Inv, Pump, InterruptQueued;
  }

  lemma {:induction false} InterruptKeepsTimers(c: Core)
    ensures InterruptQueued(c).lifecycle == c.lifecycle && InterruptQueued(c).wake == c.wake
    decreases |c.pending|
  {
    if c.pending != [] {
      var (p, outcome) := (c.pending[0], Outcome(Interrupted, None, Some(StoppedBeforeExecution)));
      InterruptKeepsTimers(c.(pending := c.pending[1..], owned := c.owned - {p.schedule.id}, tables := Finished(c.tables, p.runId, outcome)));
    }
  }

  lemma SameHeld(c: Core, c': Core)
    requires c'.pending == c.pending && c'.active == c.active
    ensures forall e :: Holds(c', e) <==> Holds(c, e)
  {
  }

  lemma {:induction false} PumpKeepsActive(cfg: Config, c: Core, cwdExists: string -> bool)
    requires Consistent(c)
    ensures forall r | r in c.active :: r in Pump(cfg, c, cwdExists).active && Pump(cfg, c, cwdExists).active[r] == c.active[r]
  {
    forall r | r in c.active
      ensures r in DispatchAll(cfg, c, cwdExists).active && DispatchAll(cfg, c, cwdExists).active[r] == c.active[r]
    {
      ActiveHasRow(c, r);
      hide Consistent;
      StartedRunsStay(cfg, c, cwdExists, r);
    }
  }

  lemma {:induction false} StoppingStepCreatesNothing(cfg: Config, c: Core, action: Action)
    requires ValidConfig(cfg) && Inv(cfg, c) && Enabled(c, action) && ShuttingDown(c)
    ensures Step(cfg, c, action).tables.runs.Keys == c.tables.runs.Keys
  {
    if action.DoRunNow? || action.DoWake? {
      hide Pump, ClaimAll, IsDueList, HistoryKept, Consistent;
    } else {
      hide Inv, Step, Enabled;
      OthersKeepRunIds(cfg, c, action);
    }
  }

  /** Once it is stopping the scheduler creates no run, in any continuation. */
  lemma {:induction false} StoppingCreatesNothing(cfg: Config, trace: seq<Core>, actions: seq<Action>, i: nat, n: nat)
    requires ValidConfig(cfg) && IsRun(cfg, trace, actions) && i <= n < |trace| && Inv(cfg, trace[i]) && ShuttingDown(trace[i])
    ensures ShuttingDown(trace[n]) && trace[n].tables.runs.Keys == trace[i].tables.runs.Keys
    decreases n - i
  {
    hide Inv, Step, Enabled, ShuttingDown;
    if i < n {
      StoppingCreatesNothing(cfg, trace, actions, i, n - 1);
      RowsOnlyMoveForward(cfg, trace, actions, i, n - 1);
      OutstandingFalls(cfg, trace[n - 1], actions[n - 1]);
      StoppingStepCreatesNothing(cfg, trace[n - 1], actions[n - 1]);
    }
  }

  /** Recovery ends exactly the runs that were running, and keeps every other row and every schedule. */
  lemma RecoveryEndsTheRunning(stored: Tables)
    ensures var t := Fresh(stored).tables;
            && t.schedules == stored.schedules && t.runs.Keys == stored.runs.Keys
            && forall r | r in stored.runs ::
                 t.runs[r] == if stored.runs[r].status == RunStatus.Running
                              then stored.runs[r].(status := Interrupted, error := Some(StartupRecovery)) else stored.runs[r]
  {
  }
}
