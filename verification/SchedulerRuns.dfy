/** Every step keeps the scheduler's invariant, and what that gives over whole runs. */
module SchedulerRuns {
  import opened Wrappers
  import opened Occurrences
  import opened ScheduleTables
  import opened ClaimHistory
  import opened SchedulerSteps
  import opened SchedulerInvariants

  /** `interrupted` is written only by a cancelling stop, or at the end of a run it aborted. */
  ghost predicate MayInterrupt(cfg: Config, c: Core, action: Action) {
    && cfg.policy == Cancel
    && match action
       case DoStop(_) => c.stop == NotAsked
       case DoEnd(runId, _) => c.lifecycle.Stopping? && runId in c.active && c.active[runId].abort.Some?
       case _ => false
  }

  /** `completed` is written only when a runner returned 0 and was never asked to abort. */
  ghost predicate MayComplete(c: Core, action: Action) {
    action.DoEnd? && action.ending == Returned(0) && action.runId in c.active && c.active[action.runId].abort == None
  }

  ghost function EndingsOf(cfg: Config, c: Core, action: Action): set<RunStatus> {
    (if MayInterrupt(cfg, c, action) then {Interrupted} else {}) + (if MayComplete(c, action) then {Completed} else {})
  }

  // ---------------------------------------------------------------- one lemma a step

  lemma InitialIsOnGrid(cfg: Config, input: Input, nowMs: int)
    requires ValidConfig(cfg) && ValidTrigger(cfg.cron, input.trigger)
    ensures var next := InitialNextRunAt(cfg, input, nowMs);
            input.trigger.Every? && next.Some? ==> OnGrid(input.trigger.everyMs, input.trigger.anchorMs, next.value)
  {
    NextIsLeastOccurrence(cfg.cron, input.trigger, nowMs);
  }

  /** A step that leaves the queue, the active map and every run row alone. */
  lemma SchedulesOnly(cfg: Config, c: Core, t: Tables)
    requires Consistent(c) && t.runs == c.tables.runs
    ensures Consistent(c.(tables := t))
  {
    hide Consistent;
    SameWorkStaysConsistent(c, c.(tables := t));
  }

  lemma TimersOnly(cfg: Config, c: Core, c': Core)
    requires Consistent(c)
    requires c'.pending == c.pending && c'.active == c.active && c'.owned == c.owned && c'.tables == c.tables
    ensures Consistent(c')
  {
    hide Consistent;
    SameWorkStaysConsistent(c, c');
  }

  lemma NoMove(t: Tables)
    ensures TablesMove(t, t, {})
  {
  }

  lemma {:induction false} OwnerStepMovesRows(cfg: Config, c: Core, action: Action)
    requires ValidConfig(cfg) && (action.DoAdd? || action.DoUpdate? || action.DoRemove?)
    ensures TablesMove(c.tables, Step(cfg, c, action).tables, {})
    ensures Step(cfg, c, action).tables.runs == c.tables.runs
  {
    hide Validate, InitialNextRunAt, TablesMove, CreateSchedule, UpdateSchedule, DeleteSchedule;
    NoMove(c.tables);
    match action
    case DoAdd(id, input, nowMs) =>
      var normalized := Validate(cfg, input);
      if normalized.Some? {
        CreateMovesRows(c.tables, id, normalized.value, InitialNextRunAt(cfg, normalized.value, nowMs));
      }
    case DoUpdate(id, input, expectedRevision, nowMs) =>
      var normalized := Validate(cfg, input);
      if normalized.Some? {
        UpdateMovesRows(c.tables, id, normalized.value, expectedRevision, InitialNextRunAt(cfg, normalized.value, nowMs));
      }
    case DoRemove(id) => DeleteMovesRows(c.tables, id);
  }

  lemma CreateMovesRows(t: Tables, id: Id, input: Input, nextRunAt: Option<int>)
    ensures CreateSchedule(t, id, input, nextRunAt).Success? ==>
              var t' := CreateSchedule(t, id, input, nextRunAt).value; TablesMove(t, t', {}) && t'.runs == t.runs
  {
  }

  lemma UpdateMovesRows(t: Tables, id: Id, input: Input, expectedRevision: nat, nextRunAt: Option<int>)
    ensures UpdateSchedule(t, id, input, expectedRevision, nextRunAt).Success? ==>
              var t' := UpdateSchedule(t, id, input, expectedRevision, nextRunAt).value; TablesMove(t, t', {}) && t'.runs == t.runs
  {
  }

  lemma DeleteMovesRows(t: Tables, id: Id)
    ensures TablesMove(t, DeleteSchedule(t, id), {}) && DeleteSchedule(t, id).runs == t.runs
  {
  }

  lemma {:induction false} OwnerStepKeepsTables(cfg: Config, c: Core, action: Action)
    requires ValidConfig(cfg) && HistoryKept(cfg.cron, c.tables)
    requires action.DoAdd? || action.DoUpdate? || action.DoRemove?
    ensures HistoryKept(cfg.cron, Step(cfg, c, action).tables)
  {
    hide HistoryKept, CreateSchedule, UpdateSchedule, DeleteSchedule;
    match action
    case DoAdd(id, input, nowMs) =>
      var normalized := Validate(cfg, input);
      if normalized.Some? {
        InitialIsOnGrid(cfg, normalized.value, nowMs);
        CreateKeepsHistory(cfg.cron, c.tables, id, normalized.value, InitialNextRunAt(cfg, normalized.value, nowMs));
      }
    case DoUpdate(id, input, expectedRevision, nowMs) =>
      var normalized := Validate(cfg, input);
      if normalized.Some? {
        InitialIsOnGrid(cfg, normalized.value, nowMs);
        UpdateKeepsHistory(cfg.cron, c.tables, id, normalized.value, expectedRevision, InitialNextRunAt(cfg, normalized.value, nowMs));
      }
    case DoRemove(id) =>
      DeleteKeepsHistory(cfg.cron, c.tables, id);
  }

  lemma OwnerStepKeepsInv(cfg: Config, c: Core, action: Action)
    requires ValidConfig(cfg) && Inv(cfg, c)
    requires action.DoAdd? || action.DoUpdate? || action.DoRemove?
    ensures Inv(cfg, Step(cfg, c, action))
    ensures TablesMove(c.tables, Step(cfg, c, action).tables, {})
    ensures WorkConserving(cfg, c) ==> WorkConserving(cfg, Step(cfg, c, action))
  {
    hide HistoryKept, Consistent;
    var c' := Step(cfg, c, action);
    OwnerStepKeepsTables(cfg, c, action);
    OwnerStepMovesRows(cfg, c, action);
    hide TablesMove, ValidConfig, Validate, InitialNextRunAt, CreateSchedule, UpdateSchedule, DeleteSchedule;
    SchedulesOnly(cfg, c, c'.tables);
    TimersOnly(cfg, c.(tables := c'.tables), c');
  }

  lemma StoredKeysMatch(cron: CronParser, t: Tables)
    requires HistoryKept(cron, t)
    ensures KeysMatch(t)
  {
  }

  lemma StoredUnderItsId(cron: CronParser, t: Tables, id: Id)
    requires HistoryKept(cron, t) && Live(t, id)
    ensures t.schedules[id].def.id == id
  {
  }

  lemma ManualRunIsQueued(cfg: Config, c: Core, schedule: Definition, runId: Id, t: Tables)
    requires Sound(cfg, c) && schedule.id !in c.owned
    requires CreateRun(c.tables, runId, schedule) == Success(t)
    ensures Sound(cfg, Enqueue(c, t, Pending(schedule, runId, None)))
    ensures TablesMove(c.tables, t, {})
  {
    hide HistoryKept, Consistent;
    ManualRunKeepsHistory(cfg.cron, c.tables, runId, schedule);
    EnqueueKeepsSound(cfg, c, t, Pending(schedule, runId, None));
  }

  lemma RunNowKeepsInv(cfg: Config, c: Core, id: Id, runId: Id, cwdExists: string -> bool)
    requires ValidConfig(cfg) && Inv(cfg, c)
    ensures var c' := Accepted(c, RunNow(cfg, c, id, runId, cwdExists));
            && Inv(cfg, c')
            && TablesMove(c.tables, c'.tables, {})
            && (WorkConserving(cfg, c) || RunNow(cfg, c, id, runId, cwdExists).Success? ==> WorkConserving(cfg, c'))
  {
    hide HistoryKept, Consistent, CompletedCleanly, CreateRun;
    NoMove(c.tables);
    var result := RunNow(cfg, c, id, runId, cwdExists);
    if result.Success? {
      var schedule := ScheduleById(c.tables, id).value;
      StoredUnderItsId(cfg.cron, c.tables, id);
      var t := CreateRun(c.tables, runId, schedule).value;
      var queued := Enqueue(c, t, Pending(schedule, runId, None));
      ManualRunIsQueued(cfg, c, schedule, runId, t);
      PumpKeepsSound(cfg, queued, cwdExists);
      MovesCompose(c.tables, t, result.value.tables, {});
    }
  }

  /** `complete` is whether the loop over the due schedules reached its end. */
  ghost predicate ScanCompletes(cfg: Config, c: Core, due: seq<Definition>, nowMs: int, mint: Id -> Id)
    requires SoundParser(cfg.cron)
  {
    ClaimAll(cfg, c.(wake := None, settlingScans := c.settlingScans + 1), due, nowMs, mint).1
  }

  lemma DueIdsDiffer(t: Tables, nowMs: int, due: seq<Definition>)
    requires IsDueList(t, nowMs, due)
    ensures forall i, j | 0 <= i < j < |due| :: due[i].id != due[j].id
  {
    forall i, j | 0 <= i < j < |due|
      ensures due[i].id != due[j].id
    {
      assert Earlier(due[i], due[j]);
    }
  }

  lemma {:induction false} WakeKeepsSound(cfg: Config, c: Core, due: seq<Definition>, nowMs: int, mint: Id -> Id, cwdExists: string -> bool)
    requires ValidConfig(cfg) && Inv(cfg, c) && c.wake.Some?
    requires IsDueList(c.tables, nowMs, due)
    ensures var c' := WakeFires(cfg, c, due, nowMs, mint, cwdExists);
            && Sound(cfg, c')
            && TablesMove(c.tables, c'.tables, {})
            && c' == c.(wake := None, settlingScans := c.settlingScans + 1, pending := c'.pending, active := c'.active,
                        owned := c'.owned, tables := c'.tables)
            && (ScanCompletes(cfg, c, due, nowMs, mint) ==> WorkConserving(cfg, c'))
  {
    hide HistoryKept, Consistent, CompletedCleanly;
    var begun := c.(wake := None, settlingScans := c.settlingScans + 1);
    TimersOnly(cfg, c, begun);
    DueIdsDiffer(c.tables, nowMs, due);
    hide IsDueList, TablesMove, ClaimAll, Pump;
    ClaimAllKeepsSound(cfg, begun, due, nowMs, mint);
    var (claimed, complete) := ClaimAll(cfg, begun, due, nowMs, mint);
    if complete {
      PumpKeepsSound(cfg, claimed, cwdExists);
      MovesCompose(c.tables, claimed.tables, Pump(cfg, claimed, cwdExists).tables, {});
    }
  }

  lemma {:induction false} WakeKeepsInv(cfg: Config, c: Core, due: seq<Definition>, nowMs: int, mint: Id -> Id, cwdExists: string -> bool)
    requires ValidConfig(cfg) && Inv(cfg, c) && c.wake.Some?
    requires IsDueList(c.tables, nowMs, due)
    ensures var c' := WakeFires(cfg, c, due, nowMs, mint, cwdExists);
            && Inv(cfg, c')
            && TablesMove(c.tables, c'.tables, {})
            && (ScanCompletes(cfg, c, due, nowMs, mint) ==> WorkConserving(cfg, c'))
  {
    hide HistoryKept, Consistent, CompletedCleanly, TablesMove, WakeFires, ScanCompletes, IsDueList, WorkConserving;
    WakeKeepsSound(cfg, c, due, nowMs, mint, cwdExists);
  }

  lemma TimeOutKeepsInv(cfg: Config, c: Core, runId: Id)
    requires ValidConfig(cfg) && Inv(cfg, c) && Executing(c, runId)
    ensures Inv(cfg, TimesOut(c, runId))
    ensures WorkConserving(cfg, c) ==> WorkConserving(cfg, TimesOut(c, runId))
  {
    hide HistoryKept, Consistent;
    assert TimesOut(c, runId).active.Keys == c.active.Keys;
    SameWorkStaysConsistent(c, TimesOut(c, runId));
  }

  lemma {:induction false} EndMovesRows(cfg: Config, c: Core, runId: Id, ending: Ending)
    requires ValidConfig(cfg) && Inv(cfg, c) && Executing(c, runId)
    ensures TablesMove(c.tables, Ends(cfg, c, runId, ending).tables, EndingsOf(cfg, c, DoEnd(runId, ending)))
  {
    hide HistoryKept, Consistent;
    var outcome := OutcomeOf(cfg, c.lifecycle, c.active[runId], ending);
    FinishedMoves(c.tables, runId, outcome);
  }

  lemma {:induction false} EndKeepsInv(cfg: Config, c: Core, runId: Id, ending: Ending)
    requires ValidConfig(cfg) && Inv(cfg, c) && Executing(c, runId)
    ensures var c' := Ends(cfg, c, runId, ending);
            && Inv(cfg, c')
            && TablesMove(c.tables, c'.tables, EndingsOf(cfg, c, DoEnd(runId, ending)))
            && (WorkConserving(cfg, c) ==> WorkConserving(cfg, c'))
  {
    hide HistoryKept, Consistent, TablesMove, EndingsOf;
    EndMovesRows(cfg, c, runId, ending);
    var outcome := OutcomeOf(cfg, c.lifecycle, c.active[runId], ending);
    var c' := Ends(cfg, c, runId, ending);
    FinishKeepsHistory(cfg.cron, c.tables, runId, outcome);
    EndKeepsConsistent(c, runId, c'.tables, outcome);
    assert c'.active.Keys == c.active.Keys;
  }

  lemma ReleaseKeepsInv(cfg: Config, c: Core, runId: Id, cwdExists: string -> bool)
    requires ValidConfig(cfg) && Inv(cfg, c) && runId in c.active && c.active[runId].settled
    ensures var c' := Releases(cfg, c, runId, cwdExists);
            && Inv(cfg, c')
            && TablesMove(c.tables, c'.tables, {})
            && WorkConserving(cfg, c')
  {
    hide HistoryKept, Consistent;
    var released := c.(active := c.active - {runId}, owned := c.owned - {c.active[runId].pending.schedule.id});
    ReleasedIsSound(cfg, c, runId);
    PumpKeepsSound(cfg, released, cwdExists);
    TimersOnly(cfg, Pump(cfg, released, cwdExists), Releases(cfg, c, runId, cwdExists));
  }

  lemma CancelStopKeepsInv(cfg: Config, c: Core, cwdExists: string -> bool)
    requires ValidConfig(cfg) && Inv(cfg, c) && c.stop == NotAsked && cfg.policy == Cancel
    ensures Inv(cfg, Stop(cfg, c, cwdExists))
    ensures TablesMove(c.tables, Stop(cfg, c, cwdExists).tables, {Interrupted})
  {
    hide HistoryKept, Consistent, CompletedCleanly, InterruptedUnstarted, TablesMove;
    var stopping := c.(lifecycle := Stopping, wake := None);
    TimersOnly(cfg, c, stopping);
    InterruptQueuedKeepsSound(cfg, stopping);
    var drained := InterruptQueued(stopping);
    AbortActiveKeepsSound(cfg, drained);
    TimersOnly(cfg, AbortActive(drained), Stop(cfg, c, cwdExists));
    assert |AbortActive(drained).active.Keys| == |c.active.Keys|;
  }

  lemma {:induction false} DrainStopKeepsInv(cfg: Config, c: Core, cwdExists: string -> bool)
    requires ValidConfig(cfg) && Inv(cfg, c) && c.stop == NotAsked && cfg.policy == Drain
    ensures Inv(cfg, Stop(cfg, c, cwdExists))
    ensures TablesMove(c.tables, Stop(cfg, c, cwdExists).tables, {})
    ensures WorkConserving(cfg, Stop(cfg, c, cwdExists))
  {
    hide HistoryKept, Consistent, CompletedCleanly, TablesMove, Pump;
    var stopping := c.(lifecycle := Stopping, wake := None);
    TimersOnly(cfg, c, stopping);
    PumpKeepsSound(cfg, stopping, cwdExists);
    TimersOnly(cfg, Pump(cfg, stopping, cwdExists), Stop(cfg, c, cwdExists));
  }

  lemma {:induction false} StopMovesRows(cfg: Config, c: Core, cwdExists: string -> bool)
    ensures EndingsOf(cfg, c, DoStop(cwdExists)) == if cfg.policy == Cancel && c.stop == NotAsked then {Interrupted} else {}
    ensures c.stop != NotAsked ==> Stop(cfg, c, cwdExists) == c
    ensures cfg.policy == Cancel && c.stop == NotAsked ==> !MayDispatch(cfg, Stop(cfg, c, cwdExists).lifecycle)
  {
    if c.stop == NotAsked && cfg.policy == Cancel {
      InterruptKeepsLifecycle(c.(lifecycle := Stopping, wake := None));
    }
  }

  lemma {:induction false} InterruptKeepsLifecycle(c: Core)
    ensures InterruptQueued(c).lifecycle == c.lifecycle
    decreases |c.pending|
  {
    if c.pending != [] {
      var p := c.pending[0];
      InterruptKeepsLifecycle(c.(pending := c.pending[1..], owned := c.owned - {p.schedule.id},
                                 tables := Finished(c.tables, p.runId, Outcome(Interrupted, None, Some(StoppedBeforeExecution)))));
    }
  }

  lemma {:induction false} StopKeepsInv(cfg: Config, c: Core, cwdExists: string -> bool)
    requires ValidConfig(cfg) && Inv(cfg, c)
    ensures var c' := Stop(cfg, c, cwdExists);
            && Inv(cfg, c')
            && TablesMove(c.tables, c'.tables, EndingsOf(cfg, c, DoStop(cwdExists)))
            && (WorkConserving(cfg, c) ==> WorkConserving(cfg, c'))
  {
    hide Inv, TablesMove, Stop, EndingsOf;
    NoMove(c.tables);
    StopMovesRows(cfg, c, cwdExists);
    if c.stop == NotAsked {
      if cfg.policy == Cancel {
        CancelStopKeepsInv(cfg, c, cwdExists);
      } else {
        DrainStopKeepsInv(cfg, c, cwdExists);
      }
    }
  }

  // ---------------------------------------------------------------- all steps

  lemma {:induction false} QuietSteps(cfg: Config, c: Core, action: Action)
    requires Enabled(c, action)
    ensures !action.DoEnd? && !action.DoStop? ==> EndingsOf(cfg, c, action) == {}
  {
  }

  lemma {:induction false} StartKeepsInv(cfg: Config, c: Core)
    requires Inv(cfg, c)
    ensures Inv(cfg, Start(c)) && Start(c).tables == c.tables
  {
    hide HistoryKept, Consistent, CompletedCleanly;
    TimersOnly(cfg, c, Start(c));
  }

  lemma {:induction false} ScanSettlesKeepsInv(cfg: Config, c: Core)
    requires Inv(cfg, c) && c.settlingScans > 0
    ensures Inv(cfg, ScanSettles(cfg, c)) && ScanSettles(cfg, c).tables == c.tables
  {
    hide HistoryKept, Consistent, CompletedCleanly;
    TimersOnly(cfg, c, ScanSettles(cfg, c));
  }

  lemma {:induction false} StopResumesKeepsInv(cfg: Config, c: Core)
    requires Inv(cfg, c) && c.stop == Released
    ensures Inv(cfg, StopResumes(c)) && StopResumes(c).tables == c.tables
  {
    hide HistoryKept, Consistent, CompletedCleanly;
    TimersOnly(cfg, c, StopResumes(c));
  }

  lemma {:induction false} StepKeepsInv(cfg: Config, c: Core, action: Action)
    requires ValidConfig(cfg) && Inv(cfg, c) && Enabled(c, action)
    ensures Inv(cfg, Step(cfg, c, action))
    ensures TablesMove(c.tables, Step(cfg, c, action).tables, EndingsOf(cfg, c, action))
  {
    QuietSteps(cfg, c, action);
    NoMove(c.tables);
    hide Inv, EndingsOf, TablesMove, WorkConserving, ScanCompletes, IsDueList, SoundParser;
    hide Start, Add, Update, Remove, RunNow, WakeFires, ScanSettles, TimesOut, Ends, Releases, Stop, StopResumes;
    match action
    case DoStart => StartKeepsInv(cfg, c);
    case DoAdd(_, _, _) => OwnerStepKeepsInv(cfg, c, action);
    case DoUpdate(_, _, _, _) => OwnerStepKeepsInv(cfg, c, action);
    case DoRemove(_) => OwnerStepKeepsInv(cfg, c, action);
    case DoRunNow(id, runId, cwdExists) => RunNowKeepsInv(cfg, c, id, runId, cwdExists);
    case DoWake(due, nowMs, mint, cwdExists) => WakeKeepsInv(cfg, c, due, nowMs, mint, cwdExists);
    case DoScanSettles => ScanSettlesKeepsInv(cfg, c);
    case DoTimeOut(runId) => TimeOutKeepsInv(cfg, c, runId);
    case DoEnd(runId, ending) => EndKeepsInv(cfg, c, runId, ending);
    case DoRelease(runId, cwdExists) => ReleaseKeepsInv(cfg, c, runId, cwdExists);
    case DoStop(cwdExists) => StopKeepsInv(cfg, c, cwdExists);
    case DoStopResumes => StopResumesKeepsInv(cfg, c);
  }

  /** Dispatch is work-conserving after every step except a scan that a throw cut short. */
  lemma StepKeepsWorkConserving(cfg: Config, c: Core, action: Action)
    requires ValidConfig(cfg) && Inv(cfg, c) && Enabled(c, action) && WorkConserving(cfg, c)
    requires action.DoWake? ==> ScanCompletes(cfg, c, action.due, action.nowMs, action.mint)
    ensures WorkConserving(cfg, Step(cfg, c, action))
  {
    hide HistoryKept, Consistent;
    match action
    case DoAdd(_, _, _) => OwnerStepKeepsInv(cfg, c, action);
    case DoUpdate(_, _, _, _) => OwnerStepKeepsInv(cfg, c, action);
    case DoRemove(_) => OwnerStepKeepsInv(cfg, c, action);
    case DoRunNow(id, runId, cwdExists) => RunNowKeepsInv(cfg, c, id, runId, cwdExists);
    case DoWake(due, nowMs, mint, cwdExists) => WakeKeepsInv(cfg, c, due, nowMs, mint, cwdExists);
    case DoTimeOut(runId) => TimeOutKeepsInv(cfg, c, runId);
    case DoEnd(runId, ending) => EndKeepsInv(cfg, c, runId, ending);
    case DoRelease(runId, cwdExists) => ReleaseKeepsInv(cfg, c, runId, cwdExists);
    case DoStop(cwdExists) => StopKeepsInv(cfg, c, cwdExists);
    case _ =>
  }

  /**
   * A scan is cut short only by a row insert that the store refuses: every stored trigger is valid, so
   * when no minted id is taken the loop reaches its end.
   */
  lemma {:induction false} ScanReachesItsEnd(cfg: Config, c: Core, due: seq<Definition>, nowMs: int, mint: Id -> Id)
    requires ValidConfig(cfg)
    requires forall d | d in due :: ValidTrigger(cfg.cron, d.trigger) && mint(d.id) !in c.tables.runs
    requires forall i, j | 0 <= i < j < |due| :: mint(due[i].id) != mint(due[j].id)
    ensures ClaimAll(cfg, c, due, nowMs, mint).1
    decreases |due|
  {
    if due != [] {
      var schedule := due[0];
      var rest := due[1..];
      forall d | d in rest
        ensures d in due && mint(d.id) != mint(schedule.id)
      {
        var i :| 0 <= i < |rest| && rest[i] == d;
        assert due[i + 1] == d && mint(due[0].id) != mint(due[i + 1].id);
      }
      forall i, j | 0 <= i < j < |rest|
        ensures mint(rest[i].id) != mint(rest[j].id)
      {
        assert mint(due[i + 1].id) != mint(due[j + 1].id);
      }
      if c.lifecycle != Lifecycle.Running || schedule.id in c.owned || schedule.nextRunAt == None {
        ScanReachesItsEnd(cfg, c, rest, nowMs, mint);
      } else {
        var claim := ClaimOne(cfg, c.tables, schedule, nowMs, mint(schedule.id));
        if claim == Success(None) {
          ScanReachesItsEnd(cfg, c, rest, nowMs, mint);
        } else {
          var p := Pending(schedule, mint(schedule.id), Some(ScanContext(cfg, schedule, nowMs)));
          ScanReachesItsEnd(cfg, Enqueue(c, claim.value.value, p), rest, nowMs, mint);
        }
      }
    }
  }

  // ---------------------------------------------------------------- over whole runs

  /** Every state of every run from a recovered database satisfies the invariant. */
  lemma {:induction false} EveryReachableState(cfg: Config, stored: Tables, trace: seq<Core>, actions: seq<Action>, n: nat)
    requires ValidConfig(cfg) && HistoryKept(cfg.cron, stored) && CompletedCleanly(stored)
    requires IsRun(cfg, trace, actions) && trace[0] == Fresh(stored) && n < |trace|
    ensures Inv(cfg, trace[n])
  {
    hide HistoryKept, Inv;
    if n == 0 {
      RecoveryMakesInv(cfg, stored);
    } else {
      EveryReachableState(cfg, stored, trace, actions, n - 1);
      StepKeepsInv(cfg, trace[n - 1], actions[n - 1]);
    }
  }

  /**
   * Stored rows only move forward along a run: terminal run rows never change, schedule revisions only
   * rise, and under a draining policy the scheduler interrupts nothing.
   */
  lemma {:induction false} RowsOnlyMoveForward(cfg: Config, trace: seq<Core>, actions: seq<Action>, i: nat, j: nat)
    requires ValidConfig(cfg) && IsRun(cfg, trace, actions) && i <= j < |trace| && Inv(cfg, trace[i])
    ensures Inv(cfg, trace[j])
    ensures TablesMove(trace[i].tables, trace[j].tables, if cfg.policy == Drain then {Completed} else {Completed, Interrupted})
    decreases j - i
  {
    hide HistoryKept, Inv, TablesMove;
    var endings := if cfg.policy == Drain then {Completed} else {Completed, Interrupted};
    if i == j {
      NoMove(trace[i].tables);
      MovesWiden(trace[i].tables, trace[i].tables, {}, endings);
    } else {
      RowsOnlyMoveForward(cfg, trace, actions, i, j - 1);
      StepKeepsInv(cfg, trace[j - 1], actions[j - 1]);
      MovesWiden(trace[j - 1].tables, trace[j].tables, EndingsOf(cfg, trace[j - 1], actions[j - 1]), endings);
      MovesCompose(trace[i].tables, trace[j - 1].tables, trace[j].tables, endings);
    }
  }

  /** What executes is what the schedule row held when the run was created, and the row still says so. */
  lemma ExecutesTheClaimedSnapshot(cfg: Config, c: Core, e: Pending)
    requires Inv(cfg, c) && Holds(c, e)
    ensures e.runId in c.tables.runs
    ensures var run := c.tables.runs[e.runId];
            && run.claimed == e.schedule
            && run.payload == e.schedule.payload && run.cwd == e.schedule.cwd
            && run.timeoutSeconds == e.schedule.timeoutSeconds
  {
    assert HasRow(c.tables, e);
    assert SnapshotKept(c.tables.runs[e.runId]);
  }

  /** A row reaches `completed` only at the end of its own unaborted execution, which returned 0. */
  lemma CompletedOnlyUnaborted(cfg: Config, c: Core, action: Action, r: Id)
    requires ValidConfig(cfg) && Inv(cfg, c) && Enabled(c, action)
    requires r in Step(cfg, c, action).tables.runs && Step(cfg, c, action).tables.runs[r].status == Completed
    requires r in c.tables.runs ==> c.tables.runs[r].status != Completed
    ensures action == DoEnd(r, Returned(0)) && Executing(c, r) && c.active[r].abort == None
  {
    hide HistoryKept, Consistent;
    StepKeepsInv(cfg, c, action);
  }

  lemma {:induction false} OnlyQueuedInterrupted(c: Core, r: Id)
    requires r in c.tables.runs && r in InterruptQueued(c).tables.runs && InterruptQueued(c).tables.runs[r] != c.tables.runs[r]
    ensures Queued(c, r)
    decreases |c.pending|
  {
    if c.pending != [] {
      var p := c.pending[0];
      var next := c.(pending := c.pending[1..], owned := c.owned - {p.schedule.id},
                     tables := Finished(c.tables, p.runId, Outcome(Interrupted, None, Some(StoppedBeforeExecution))));
      if p.runId != r {
        OnlyQueuedInterrupted(next, r);
        var q :| q in next.pending && q.runId == r;
        assert q in c.pending;
      } else {
        assert p in c.pending;
      }
    }
  }

  lemma {:induction false} InterruptQueuedKeepsKeys(c: Core)
    ensures InterruptQueued(c).tables.runs.Keys == c.tables.runs.Keys
    decreases |c.pending|
  {
    if c.pending != [] {
      var p := c.pending[0];
      InterruptQueuedKeepsKeys(c.(pending := c.pending[1..], owned := c.owned - {p.schedule.id},
                                  tables := Finished(c.tables, p.runId, Outcome(Interrupted, None, Some(StoppedBeforeExecution)))));
    }
  }

  /**
   * A row reaches `interrupted` only under a cancelling stop: the run itself was queued when the stop was asked for,
   * or had been aborted by it and then ended.
   */
  lemma {:induction false} InterruptedOnlyByCancel(cfg: Config, c: Core, action: Action, r: Id)
    requires ValidConfig(cfg) && Inv(cfg, c) && Enabled(c, action)
    requires r in Step(cfg, c, action).tables.runs && Step(cfg, c, action).tables.runs[r].status == Interrupted
    requires r in c.tables.runs ==> c.tables.runs[r].status != Interrupted
    ensures cfg.policy == Cancel
    ensures (action.DoStop? && c.stop == NotAsked && Queued(c, r)) ||
            (action.DoEnd? && action.runId == r && c.lifecycle.Stopping? && c.active[r].abort.Some?)
  {
    InterruptedUnderCancel(cfg, c, action, r);
    hide HistoryKept, Consistent, Inv, EndingsOf;
    if action.DoStop? {
      var stopping := c.(lifecycle := Stopping, wake := None);
      InterruptQueuedKeepsKeys(stopping);
      OnlyQueuedInterrupted(stopping, r);
      var q :| q in stopping.pending && q.runId == r;
      assert Queued(c, r);
    } else {
      OnlyItsOwnRow(c.tables, action.runId, OutcomeOf(cfg, c.lifecycle, c.active[action.runId], action.ending));
    }
  }

  lemma OnlyItsOwnRow(t: Tables, runId: Id, outcome: Outcome)
    ensures Finished(t, runId, outcome).runs.Keys == t.runs.Keys
    ensures forall r | r in t.runs && r != runId :: Finished(t, runId, outcome).runs[r] == t.runs[r]
  {
  }

  lemma {:induction false} InterruptedUnderCancel(cfg: Config, c: Core, action: Action, r: Id)
    requires ValidConfig(cfg) && Inv(cfg, c) && Enabled(c, action)
    requires r in Step(cfg, c, action).tables.runs && Step(cfg, c, action).tables.runs[r].status == Interrupted
    requires r in c.tables.runs ==> c.tables.runs[r].status != Interrupted
    ensures cfg.policy == Cancel
    ensures (action.DoStop? && c.stop == NotAsked) || (action.DoEnd? && c.lifecycle.Stopping? && c.active[action.runId].abort.Some?)
  {
    hide HistoryKept, Consistent, Step;
    StepKeepsInv(cfg, c, action);
  }

  // ---------------------------------------------------------------- shutdown

  ghost predicate ShuttingDown(c: Core) {
    c.lifecycle.Stopping? || c.lifecycle.Stopped?
  }

  function Outstanding(c: Core): nat {
    |c.pending| + |c.active|
  }

  /** Once stopping, outstanding work never grows, and each release takes one away. */
  lemma OutstandingFalls(cfg: Config, c: Core, action: Action)
    requires ValidConfig(cfg) && Inv(cfg, c) && Enabled(c, action) && ShuttingDown(c)
    ensures ShuttingDown(Step(cfg, c, action))
    ensures Outstanding(Step(cfg, c, action)) == if action.DoRelease? then Outstanding(c) - 1 else Outstanding(c)
  {
    hide HistoryKept, Consistent, CompletedCleanly, CancelAsked, ClaimAll, Validate, Pump;
    match action
    case DoTimeOut(runId) => assert TimesOut(c, runId).active.Keys == c.active.Keys;
    case DoEnd(runId, ending) => assert Ends(cfg, c, runId, ending).active.Keys == c.active.Keys;
    case DoRelease(runId, cwdExists) => ReleaseTakesOneAway(cfg, c, runId, cwdExists);
    case _ =>
  }

  lemma {:induction false} ReleaseTakesOneAway(cfg: Config, c: Core, runId: Id, cwdExists: string -> bool)
    requires ValidConfig(cfg) && Inv(cfg, c) && runId in c.active && c.active[runId].settled
    ensures Outstanding(Releases(cfg, c, runId, cwdExists)) == Outstanding(c) - 1
    ensures Releases(cfg, c, runId, cwdExists).lifecycle == c.lifecycle
  {
    hide HistoryKept, Consistent, CompletedCleanly, CancelAsked, Pump;
    var released := c.(active := c.active - {runId}, owned := c.owned - {c.active[runId].pending.schedule.id});
    ReleasedIsSound(cfg, c, runId);
    PumpKeepsSound(cfg, released, cwdExists);
  }

  lemma ReleasedIsSound(cfg: Config, c: Core, runId: Id)
    requires Inv(cfg, c) && runId in c.active && c.active[runId].settled
    ensures var released := c.(active := c.active - {runId}, owned := c.owned - {c.active[runId].pending.schedule.id});
            Sound(cfg, released) && |released.active| == |c.active| - 1
  {
    hide HistoryKept, Consistent;
    ReleaseKeepsConsistent(c, runId);
    assert c.active.Keys == (c.active - {runId}).Keys + {runId};
  }

  /** When `stop` has resolved nothing is owned, queued or active, and every run is terminal. */
  lemma StoppedOwnsNothing(cfg: Config, c: Core)
    requires Inv(cfg, c) && c.stop == Done
    ensures c.pending == [] && c.active == map[] && c.owned == {}
    ensures forall r | r in c.tables.runs :: c.tables.runs[r].status != RunStatus.Running
  {
    assert forall e :: !Holds(c, e);
    assert forall r :: !Queued(c, r) && !Executing(c, r);
    assert forall id :: id !in c.owned;
  }

  /** A cancelling stop interrupts every queued run; none of them is ever active. */
  lemma CancelInterruptsQueued(cfg: Config, c: Core, cwdExists: string -> bool, p: Pending)
    requires ValidConfig(cfg) && Inv(cfg, c) && cfg.policy == Cancel && c.stop == NotAsked && p in c.pending
    ensures var c' := Stop(cfg, c, cwdExists);
            && InterruptedUnstarted(c'.tables, p.runId)
            && p.runId !in c'.active && c'.pending == []
  {
    hide HistoryKept, Consistent;
    var stopping := c.(lifecycle := Stopping, wake := None);
    TimersOnly(cfg, c, stopping);
    InterruptQueuedKeepsSound(cfg, stopping);
    NotActiveWhileQueued(c, p);
    assert p in stopping.pending;
  }

  lemma NotActiveWhileQueued(c: Core, p: Pending)
    requires Consistent(c) && p in c.pending
    ensures p.runId !in c.active
  {
  }

  // ---------------------------------------------------------------- the queue is first in, first out

  ghost function RunIds(queue: seq<Pending>): set<Id> {
    set p | p in queue :: p.runId
  }

  /** Dispatch takes a prefix of the queue, in order, into the active map. */
  ghost predicate TakesPrefix(c: Core, c': Core, k: nat) {
    && k <= |c.pending|
    && c'.pending == c.pending[k..]
    && c'.active.Keys == c.active.Keys + RunIds(c.pending[..k])
  }

  lemma RunIdsOfHead(queue: seq<Pending>, k: nat)
    requires k < |queue|
    ensures RunIds(queue[..k + 1]) == {queue[0].runId} + RunIds(queue[1..][..k])
  {
    assert queue[..k + 1] == [queue[0]] + queue[1..][..k];
  }

  lemma {:induction false} DispatchAllIsFifo(cfg: Config, c: Core, cwdExists: string -> bool) returns (k: nat)
    ensures TakesPrefix(c, DispatchAll(cfg, c, cwdExists), k)
    decreases |c.pending|
  {
    if CanDispatch(cfg, c) {
      var next := Dispatch(cfg, c, cwdExists);
      var rest := DispatchAllIsFifo(cfg, next, cwdExists);
      k := rest + 1;
      DispatchTakesHead(cfg, c, cwdExists);
      PrefixesJoin(c, next, DispatchAll(cfg, next, cwdExists), rest);
    } else {
      k := 0;
      assert c.pending[..0] == [];
    }
  }

  lemma DispatchTakesHead(cfg: Config, c: Core, cwdExists: string -> bool)
    requires c.pending != []
    ensures Dispatch(cfg, c, cwdExists).pending == c.pending[1..]
    ensures Dispatch(cfg, c, cwdExists).active.Keys == c.active.Keys + {c.pending[0].runId}
  {
  }

  lemma PrefixesJoin(c: Core, next: Core, last: Core, k: nat)
    requires c.pending != [] && next.pending == c.pending[1..] && next.active.Keys == c.active.Keys + {c.pending[0].runId}
    requires TakesPrefix(next, last, k)
    ensures TakesPrefix(c, last, k + 1)
  {
    RunIdsOfHead(c.pending, k);
    assert c.pending[1..][k..] == c.pending[k + 1..];
  }

  /**
   * One step seen from the queue: the first `k` entries leave it, `added` joins its end, and a run is
   * active afterwards only if it was active, was one of those `k`, or is new. With `k` short of the
   * whole queue nothing new has been started.
   */
  ghost predicate QueueMoves(c: Core, c': Core, k: nat, added: seq<Pending>) {
    && k <= |c.pending|
    && c'.pending == c.pending[k..] + added
    && (forall p | p in added :: p.runId !in c.tables.runs)
    && (forall r | r in c'.active :: r in c.active || r in RunIds(c.pending[..k]) || (r !in c.tables.runs && k == |c.pending|))
  }

  lemma PrefixThenAdded(c: Core, queued: Core, c': Core, extra: seq<Pending>, taken: nat) returns (k: nat, added: seq<Pending>)
    requires queued.pending == c.pending + extra && queued.active.Keys <= c.active.Keys
    requires forall p | p in extra :: p.runId !in c.tables.runs
    requires TakesPrefix(queued, c', taken)
    ensures QueueMoves(c, c', k, added)
    ensures RunIds(c.pending[..k]) <= c'.active.Keys
    ensures added <= extra || k == |c.pending|
  {
    if taken <= |c.pending| {
      k, added := taken, extra;
      assert queued.pending[taken..] == c.pending[k..] + extra;
    } else {
      k, added := |c.pending|, extra[taken - |c.pending|..];
      assert queued.pending[taken..] == added;
    }
    assert queued.pending[..taken] == c.pending[..k] + extra[..taken - k];
  }

  /** The scan only adds at the end of the queue, and only runs that did not exist. */
  lemma {:induction false} ClaimAllAppends(cfg: Config, c: Core, due: seq<Definition>, nowMs: int, mint: Id -> Id) returns (extra: seq<Pending>)
    requires SoundParser(cfg.cron)
    ensures var c' := ClaimAll(cfg, c, due, nowMs, mint).0;
            && c'.pending == c.pending + extra && c'.active == c.active
            && (forall p | p in extra :: p.runId !in c.tables.runs)
    decreases |due|
  {
    extra := [];
    if due != [] {
      var schedule := due[0];
      if c.lifecycle != Lifecycle.Running || schedule.id in c.owned || schedule.nextRunAt == None {
        extra := ClaimAllAppends(cfg, c, due[1..], nowMs, mint);
      } else if ValidTrigger(cfg.cron, schedule.trigger) {
        var claim := ClaimOne(cfg, c.tables, schedule, nowMs, mint(schedule.id));
        if claim == Success(None) {
          extra := ClaimAllAppends(cfg, c, due[1..], nowMs, mint);
        } else if claim.Success? {
          var p := Pending(schedule, mint(schedule.id), Some(ScanContext(cfg, schedule, nowMs)));
          var rest := ClaimAllAppends(cfg, Enqueue(c, claim.value.value, p), due[1..], nowMs, mint);
          extra := [p] + rest;
        }
      }
    }
  }

  lemma {:induction false} InterruptQueuedEmpties(c: Core)
    ensures InterruptQueued(c).pending == [] && InterruptQueued(c).active == c.active
    decreases |c.pending|
  {
    if c.pending != [] {
      var p := c.pending[0];
      InterruptQueuedEmpties(c.(pending := c.pending[1..], owned := c.owned - {p.schedule.id},
                                tables := Finished(c.tables, p.runId, Outcome(Interrupted, None, Some(StoppedBeforeExecution)))));
    }
  }

  lemma PumpIsFifo(cfg: Config, c: Core, cwdExists: string -> bool) returns (k: nat)
    ensures TakesPrefix(c, Pump(cfg, c, cwdExists), k)
  {
    k := 0;
    if MayDispatch(cfg, c.lifecycle) {
      k := DispatchAllIsFifo(cfg, c, cwdExists);
    }
  }

  lemma NothingTaken(c: Core, c': Core, added: seq<Pending>)
    requires c'.pending == c.pending + added && c'.active.Keys == c.active.Keys
    requires forall p | p in added :: p.runId !in c.tables.runs
    ensures QueueMoves(c, c', 0, added)
  {
  }

  lemma WakeIsFifo(cfg: Config, c: Core, due: seq<Definition>, nowMs: int, mint: Id -> Id, cwdExists: string -> bool)
    returns (k: nat, added: seq<Pending>)
    requires SoundParser(cfg.cron)
    ensures QueueMoves(c, WakeFires(cfg, c, due, nowMs, mint, cwdExists), k, added)
    ensures RunIds(c.pending[..k]) <= WakeFires(cfg, c, due, nowMs, mint, cwdExists).active.Keys
  {
    hide ClaimAll, Pump;
    k, added := 0, [];
    if c.lifecycle == Lifecycle.Running {
      var begun := c.(wake := None, settlingScans := c.settlingScans + 1);
      var (claimed, complete) := ClaimAll(cfg, begun, due, nowMs, mint);
      var extra := ClaimAllAppends(cfg, begun, due, nowMs, mint);
      if complete {
        var taken := PumpIsFifo(cfg, claimed, cwdExists);
        k, added := PrefixThenAdded(c, claimed, Pump(cfg, claimed, cwdExists), extra, taken);
      } else {
        added := extra;
      }
    }
  }

  lemma StopIsFifo(cfg: Config, c: Core, cwdExists: string -> bool) returns (k: nat, added: seq<Pending>)
    ensures QueueMoves(c, Stop(cfg, c, cwdExists), k, added)
    ensures cfg.policy == Drain ==> RunIds(c.pending[..k]) <= Stop(cfg, c, cwdExists).active.Keys
  {
    hide Pump, InterruptQueued;
    k, added := 0, [];
    if c.stop == NotAsked {
      var stopping := c.(lifecycle := Stopping, wake := None);
      if cfg.policy == Cancel {
        InterruptQueuedEmpties(stopping);
        k := |c.pending|;
      } else {
        var taken := PumpIsFifo(cfg, stopping, cwdExists);
        k, added := PrefixThenAdded(c, stopping, Pump(cfg, stopping, cwdExists), [], taken);
      }
    }
  }

  lemma RunNowIsFifo(cfg: Config, c: Core, id: Id, runId: Id, cwdExists: string -> bool) returns (k: nat, added: seq<Pending>)
    requires ValidConfig(cfg)
    ensures var c' := Accepted(c, RunNow(cfg, c, id, runId, cwdExists));
            QueueMoves(c, c', k, added) && RunIds(c.pending[..k]) <= c'.active.Keys
  {
    hide Pump, CreateRun;
    k, added := 0, [];
    var result := RunNow(cfg, c, id, runId, cwdExists);
    if result.Success? {
      var schedule := ScheduleById(c.tables, id).value;
      RunIsNew(c.tables, runId, schedule);
      var queued := Enqueue(c, CreateRun(c.tables, runId, schedule).value, Pending(schedule, runId, None));
      var taken := PumpIsFifo(cfg, queued, cwdExists);
      k, added := PrefixThenAdded(c, queued, result.value, [Pending(schedule, runId, None)], taken);
    }
  }

  lemma ReleaseIsFifo(cfg: Config, c: Core, runId: Id, cwdExists: string -> bool) returns (k: nat, added: seq<Pending>)
    requires runId in c.active
    ensures var c' := Releases(cfg, c, runId, cwdExists);
            QueueMoves(c, c', k, added) && RunIds(c.pending[..k]) <= c'.active.Keys
  {
    hide Pump, TakesPrefix;
    var released := c.(active := c.active - {runId}, owned := c.owned - {c.active[runId].pending.schedule.id});
    var taken := PumpIsFifo(cfg, released, cwdExists);
    assert released.pending == c.pending + [];
    k, added := PrefixThenAdded(c, released, Pump(cfg, released, cwdExists), [], taken);
  }

  lemma {:induction false} OthersLeaveTheQueue(cfg: Config, c: Core, action: Action)
    requires ValidConfig(cfg) && Enabled(c, action)
    requires !action.DoRunNow? && !action.DoWake? && !action.DoRelease? && !action.DoStop?
    ensures Step(cfg, c, action).pending == c.pending && Step(cfg, c, action).active.Keys == c.active.Keys
  {
    hide Validate, CreateSchedule, UpdateSchedule, DeleteSchedule, InitialNextRunAt;
  }

  /** Every step takes a prefix of the queue; outside a cancelling stop all of it goes into the active map. */
  lemma {:induction false} StepIsFifo(cfg: Config, c: Core, action: Action) returns (k: nat, added: seq<Pending>)
    requires ValidConfig(cfg) && Enabled(c, action)
    ensures QueueMoves(c, Step(cfg, c, action), k, added)
    ensures !(action.DoStop? && cfg.policy == Cancel) ==> RunIds(c.pending[..k]) <= Step(cfg, c, action).active.Keys
  {
    hide QueueMoves, RunIds, Add, Update, Remove, Stop, WakeFires, RunNow, Releases, Ends, TimesOut, ScanSettles, StopResumes;
    match action
    case DoRunNow(id, runId, cwdExists) => k, added := RunNowIsFifo(cfg, c, id, runId, cwdExists);
    case DoWake(due, nowMs, mint, cwdExists) => k, added := WakeIsFifo(cfg, c, due, nowMs, mint, cwdExists);
    case DoRelease(runId, cwdExists) => k, added := ReleaseIsFifo(cfg, c, runId, cwdExists);
    case DoStop(cwdExists) => k, added := StopIsFifo(cfg, c, cwdExists);
    case _ =>
      k, added := 0, [];
      OthersLeaveTheQueue(cfg, c, action);
      assert c.pending + [] == c.pending;
      NothingTaken(c, Step(cfg, c, action), []);
      NoRunIds(c);
  }

  lemma NoRunIds(c: Core)
    ensures RunIds(c.pending[..0]) == {}
  {
  }

  lemma RunIsNew(t: Tables, runId: Id, schedule: Definition)
    requires CreateRun(t, runId, schedule).Success?
    ensures runId !in t.runs
  {
  }

  lemma TerminalStaysInactive(cfg: Config, c: Core, action: Action, r: Id)
    requires ValidConfig(cfg) && Inv(cfg, c) && Enabled(c, action)
    requires r in c.tables.runs && c.tables.runs[r].status != RunStatus.Running && r !in c.active
    ensures r !in Step(cfg, c, action).active
  {
    hide Inv, Step, Enabled;
    TerminalIsNotQueued(cfg, c, r);
    var k, added := StepIsFifo(cfg, c, action);
  }

  /** A run that is terminal and not in the active map is never dispatched again. */
  lemma {:induction false} TerminalNeverActive(cfg: Config, trace: seq<Core>, actions: seq<Action>, i: nat, j: nat, r: Id)
    requires ValidConfig(cfg) && IsRun(cfg, trace, actions) && i <= j < |trace| && Inv(cfg, trace[i])
    requires r in trace[i].tables.runs && trace[i].tables.runs[r].status != RunStatus.Running && r !in trace[i].active
    ensures r in trace[j].tables.runs && trace[j].tables.runs[r] == trace[i].tables.runs[r]
    ensures r !in trace[j].active
    decreases j - i
  {
    hide Inv, Step, Enabled;
    RowsOnlyMoveForward(cfg, trace, actions, i, j);
    if i < j {
      TerminalNeverActive(cfg, trace, actions, i, j - 1, r);
      RowsOnlyMoveForward(cfg, trace, actions, i, j - 1);
      TerminalStaysInactive(cfg, trace[j - 1], actions[j - 1], r);
    }
  }

  lemma TerminalIsNotQueued(cfg: Config, c: Core, r: Id)
    requires Inv(cfg, c) && r in c.tables.runs && c.tables.runs[r].status != RunStatus.Running
    ensures forall p | p in c.pending :: p.runId != r
  {
    forall p | p in c.pending
      ensures p.runId != r
    {
      assert Queued(c, p.runId);
    }
  }
}
