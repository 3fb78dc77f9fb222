/** What holds along whole runs of the scheduler: where runs come from, that no slot idles, and the queue's order. */
module SchedulerTraces {
  import opened Wrappers
  import opened Occurrences
  import opened ScheduleTables
  import opened ClaimHistory
  import opened SchedulerSteps
  import opened SchedulerInvariants
  import opened SchedulerRuns

  // ---------------------------------------------------------------- a run executes what the schedule row held

  /** The same run rows but for how their runs ended. */
  ghost predicate SameRuns(t: Tables, t': Tables) {
    t'.runs.Keys == t.runs.Keys && forall r | r in t.runs :: SameSnapshot(t.runs[r], t'.runs[r])
  }

  lemma FinishedKeepsRuns(t: Tables, runId: Id, outcome: Outcome)
    ensures SameRuns(t, Finished(t, runId, outcome))
  {
  }

  lemma SameRunsTwice(t: Tables, t': Tables, t'': Tables)
    requires SameRuns(t, t') && SameRuns(t', t'')
    ensures SameRuns(t, t'')
  {
  }

  lemma {:induction false} DispatchAllKeepsRuns(cfg: Config, c: Core, cwdExists: string -> bool)
    ensures SameRuns(c.tables, DispatchAll(cfg, c, cwdExists).tables)
    decreases |c.pending|
  {
    hide Finished, SameRuns, StartRefusal;
    if CanDispatch(cfg, c) {
      var (p, next) := (c.pending[0], Dispatch(cfg, c, cwdExists));
      FinishedKeepsRuns(c.tables, p.runId, Outcome(Failed, None, StartRefusal(cfg, p.schedule, cwdExists)));
      SameRunsAsBefore(c.tables);
      DispatchAllKeepsRuns(cfg, next, cwdExists);
      SameRunsTwice(c.tables, next.tables, DispatchAll(cfg, next, cwdExists).tables);
    } else {
      SameRunsAsBefore(c.tables);
    }
  }

  lemma SameRunsAsBefore(t: Tables)
    ensures SameRuns(t, t)
  {
  }

  lemma {:induction false} PumpKeepsRuns(cfg: Config, c: Core, cwdExists: string -> bool)
    ensures SameRuns(c.tables, Pump(cfg, c, cwdExists).tables)
  {
    hide SameRuns, DispatchAll;
    SameRunsAsBefore(c.tables);
    DispatchAllKeepsRuns(cfg, c, cwdExists);
  }

  lemma {:induction false} InterruptQueuedKeepsRuns(c: Core)
    ensures SameRuns(c.tables, InterruptQueued(c).tables)
    decreases |c.pending|
  {
    hide Finished, SameRuns;
    SameRunsAsBefore(c.tables);
    if c.pending != [] {
      var (p, outcome) := (c.pending[0], Outcome(Interrupted, None, Some(StoppedBeforeExecution)));
      var next := c.(pending := c.pending[1..], owned := c.owned - {p.schedule.id}, tables := Finished(c.tables, p.runId, outcome));
      FinishedKeepsRuns(c.tables, p.runId, outcome);
      InterruptQueuedKeepsRuns(next);
      SameRunsTwice(c.tables, next.tables, InterruptQueued(next).tables);
    }
  }

  /** Every run row that is new in `t'` was created from one of these definitions. */
  ghost predicate NewRunsFrom(t: Tables, t': Tables, from: set<Definition>) {
    && t.runs.Keys <= t'.runs.Keys
    && forall r | r in t'.runs && r !in t.runs :: t'.runs[r].claimed in from && t'.runs[r].scheduleId == t'.runs[r].claimed.id
  }

  lemma NoNewRuns(t: Tables, t': Tables, from: set<Definition>)
    requires SameRuns(t, t')
    ensures NewRunsFrom(t, t', from)
  {
  }

  lemma NewRunsStay(t: Tables, t': Tables, t'': Tables, from: set<Definition>)
    requires NewRunsFrom(t, t', from) && SameRuns(t', t'')
    ensures NewRunsFrom(t, t'', from)
  {
  }

  /** A scan creates runs of the listed definitions only. */
  lemma {:induction false} ClaimAllClaimsDue(cfg: Config, c: Core, due: seq<Definition>, nowMs: int, mint: Id -> Id, from: set<Definition>)
    requires SoundParser(cfg.cron) && forall d | d in due :: d in from
    ensures NewRunsFrom(c.tables, ClaimAll(cfg, c, due, nowMs, mint).0.tables, from)
    decreases |due|
  {
    if due != [] {
      var (schedule, rest) := (due[0], due[1..]);
      assert schedule in due && forall d | d in rest :: d in due;
      if c.lifecycle != Lifecycle.Running || schedule.id in c.owned || schedule.nextRunAt == None {
        ClaimAllClaimsDue(cfg, c, rest, nowMs, mint, from);
      } else if ValidTrigger(cfg.cron, schedule.trigger) {
        var claim := ClaimOne(cfg, c.tables, schedule, nowMs, mint(schedule.id));
        if claim == Success(None) {
          ClaimAllClaimsDue(cfg, c, rest, nowMs, mint, from);
        } else if claim.Success? {
          var p := Pending(schedule, mint(schedule.id), Some(ScanContext(cfg, schedule, nowMs)));
          var next := Enqueue(c, claim.value.value, p);
          assert NewRunsFrom(c.tables, next.tables, from);
          ClaimAllClaimsDue(cfg, next, rest, nowMs, mint, from);
          ClaimAllKeepsOld(cfg, next, rest, nowMs, mint);
        }
      }
    }
  }

  lemma {:induction false} ClaimAllKeepsOld(cfg: Config, c: Core, due: seq<Definition>, nowMs: int, mint: Id -> Id)
    requires SoundParser(cfg.cron)
    ensures var t := ClaimAll(cfg, c, due, nowMs, mint).0.tables;
            c.tables.runs.Keys <= t.runs.Keys && forall r | r in c.tables.runs :: t.runs[r] == c.tables.runs[r]
    decreases |due|
  {
    if due != [] {
      var (schedule, rest) := (due[0], due[1..]);
      if c.lifecycle != Lifecycle.Running || schedule.id in c.owned || schedule.nextRunAt == None {
        ClaimAllKeepsOld(cfg, c, rest, nowMs, mint);
      } else if ValidTrigger(cfg.cron, schedule.trigger) {
        var claim := ClaimOne(cfg, c.tables, schedule, nowMs, mint(schedule.id));
        if claim == Success(None) {
          ClaimAllKeepsOld(cfg, c, rest, nowMs, mint);
        } else if claim.Success? {
          var p := Pending(schedule, mint(schedule.id), Some(ScanContext(cfg, schedule, nowMs)));
          ClaimAllKeepsOld(cfg, Enqueue(c, claim.value.value, p), rest, nowMs, mint);
        }
      }
    }
  }

  /** The definitions the live schedule rows hold. */
  ghost function Held(t: Tables): set<Definition> {
    set id | id in t.schedules && Live(t, id) :: t.schedules[id].def
  }

  lemma {:induction false} RunNowHoldsTheRow(cfg: Config, c: Core, id: Id, runId: Id, cwdExists: string -> bool)
    ensures NewRunsFrom(c.tables, Accepted(c, RunNow(cfg, c, id, runId, cwdExists)).tables, Held(c.tables))
  {
    hide SameRuns, Pump;
    SameRunsAsBefore(c.tables);
    NoNewRuns(c.tables, c.tables, Held(c.tables));
    var result := RunNow(cfg, c, id, runId, cwdExists);
    if result.Success? {
      var schedule := ScheduleById(c.tables, id).value;
      assert schedule in Held(c.tables);
      var t := CreateRun(c.tables, runId, schedule).value;
      PumpKeepsRuns(cfg, Enqueue(c, t, Pending(schedule, runId, None)), cwdExists);
      NewRunsStay(c.tables, t, result.value.tables, Held(c.tables));
    }
  }

  lemma {:induction false} WakeHoldsTheRow(cfg: Config, c: Core, due: seq<Definition>, nowMs: int, mint: Id -> Id, cwdExists: string -> bool)
    requires SoundParser(cfg.cron) && IsDueList(c.tables, nowMs, due)
    ensures NewRunsFrom(c.tables, WakeFires(cfg, c, due, nowMs, mint, cwdExists).tables, Held(c.tables))
  {
    hide SameRuns, Pump, ClaimAll, NewRunsFrom;
    SameRunsAsBefore(c.tables);
    NoNewRuns(c.tables, c.tables, Held(c.tables));
    forall d | d in due
      ensures d in Held(c.tables)
    {
      var i :| 0 <= i < |due| && due[i] == d;
      assert IsDue(c.tables, nowMs, due[i].id) && c.tables.schedules[due[i].id].def == due[i];
    }
    var begun := c.(wake := None, settlingScans := c.settlingScans + 1);
    ClaimAllClaimsDue(cfg, begun, due, nowMs, mint, Held(c.tables));
    var (claimed, complete) := ClaimAll(cfg, begun, due, nowMs, mint);
    PumpKeepsRuns(cfg, claimed, cwdExists);
    NewRunsStay(c.tables, claimed.tables, Pump(cfg, claimed, cwdExists).tables, Held(c.tables));
  }

  lemma {:induction false} OthersCreateNoRun(cfg: Config, c: Core, action: Action)
    requires ValidConfig(cfg) && Enabled(c, action) && !action.DoRunNow? && !action.DoWake?
    ensures SameRuns(c.tables, Step(cfg, c, action).tables)
  {
    hide SameRuns, Pump, InterruptQueued, Finished, OutcomeOf;
    SameRunsAsBefore(c.tables);
    match action
    case DoAdd(_, _, _) => OwnerStepMovesRows(cfg, c, action); SameRunsByEquality(c.tables, Step(cfg, c, action).tables);
    case DoUpdate(_, _, _, _) => OwnerStepMovesRows(cfg, c, action); SameRunsByEquality(c.tables, Step(cfg, c, action).tables);
    case DoRemove(_) => OwnerStepMovesRows(cfg, c, action); SameRunsByEquality(c.tables, Step(cfg, c, action).tables);
    case DoEnd(runId, ending) => FinishedKeepsRuns(c.tables, runId, OutcomeOf(cfg, c.lifecycle, c.active[runId], ending));
    case DoRelease(runId, cwdExists) =>
      PumpKeepsRuns(cfg, c.(active := c.active - {runId}, owned := c.owned - {c.active[runId].pending.schedule.id}), cwdExists);
    case DoStop(cwdExists) =>
      var stopping := c.(lifecycle := Stopping, wake := None);
      PumpKeepsRuns(cfg, stopping, cwdExists);
      InterruptQueuedKeepsRuns(stopping);
    case _ =>
  }

  lemma {:induction false} OthersKeepRunIds(cfg: Config, c: Core, action: Action)
    requires ValidConfig(cfg) && Enabled(c, action) && !action.DoRunNow? && !action.DoWake?
    ensures Step(cfg, c, action).tables.runs.Keys == c.tables.runs.Keys
  {
    hide Step, Enabled;
    OthersCreateNoRun(cfg, c, action);
  }

  lemma SameRunsByEquality(t: Tables, t': Tables)
    requires t'.runs == t.runs
    ensures SameRuns(t, t')
  {
  }

  /** Every run a step creates holds the definition its schedule's live row held just before. */
  lemma {:induction false} NewRunsHoldTheRow(cfg: Config, c: Core, action: Action, r: Id)
    requires ValidConfig(cfg) && Inv(cfg, c) && Enabled(c, action)
    requires r in Step(cfg, c, action).tables.runs && r !in c.tables.runs
    ensures var run := Step(cfg, c, action).tables.runs[r];
            Live(c.tables, run.scheduleId) && run.claimed == c.tables.schedules[run.scheduleId].def
  {
    hide Inv, WakeFires, RunNow, SameRuns, IsDueList;
    match action {
      case DoRunNow(id, runId, cwdExists) => RunNowHoldsTheRow(cfg, c, id, runId, cwdExists);
      case DoWake(due, nowMs, mint, cwdExists) => WakeHoldsTheRow(cfg, c, due, nowMs, mint, cwdExists);
      case _ => OthersKeepRunIds(cfg, c, action);
    }
    var run := Step(cfg, c, action).tables.runs[r];
    var id :| id in c.tables.schedules && Live(c.tables, id) && c.tables.schedules[id].def == run.claimed;
    KeysAreTheirs(cfg, c, id);
  }

  lemma KeysAreTheirs(cfg: Config, c: Core, id: Id)
    requires Inv(cfg, c) && id in c.tables.schedules
    ensures c.tables.schedules[id].def.id == id
  {
  }

  /** The definition a schedule's row held at some state up to this one. */
  ghost predicate OnceHeld(trace: seq<Core>, n: nat, d: Definition) {
    exists i | 0 <= i < n && i < |trace| :: d.id in trace[i].tables.schedules && trace[i].tables.schedules[d.id].def == d
  }

  lemma {:induction false} RunsOnceHeld(cfg: Config, stored: Tables, trace: seq<Core>, actions: seq<Action>, n: nat, r: Id)
    requires ValidConfig(cfg) && HistoryKept(cfg.cron, stored) && CompletedCleanly(stored)
    requires IsRun(cfg, trace, actions) && trace[0] == Fresh(stored) && n < |trace|
    requires r in trace[n].tables.runs && r !in trace[0].tables.runs
    ensures OnceHeld(trace, n, trace[n].tables.runs[r].claimed)
    decreases n
  {
    hide HistoryKept, Inv, Step, Enabled;
    if n > 0 {
      EveryReachableState(cfg, stored, trace, actions, n - 1);
      var (c, c') := (trace[n - 1], trace[n]);
      if r in c.tables.runs {
        RunsOnceHeld(cfg, stored, trace, actions, n - 1, r);
        StepKeepsInv(cfg, c, actions[n - 1]);
        assert SameSnapshot(c.tables.runs[r], c'.tables.runs[r]);
      } else {
        NewRunsHoldTheRow(cfg, c, actions[n - 1], r);
        RunIsOfItsClaim(cfg, stored, trace, actions, n, r);
      }
    }
  }

  lemma {:induction false} RunIsOfItsClaim(cfg: Config, stored: Tables, trace: seq<Core>, actions: seq<Action>, n: nat, r: Id)
    requires ValidConfig(cfg) && HistoryKept(cfg.cron, stored) && CompletedCleanly(stored)
    requires IsRun(cfg, trace, actions) && trace[0] == Fresh(stored) && n < |trace| && r in trace[n].tables.runs
    ensures trace[n].tables.runs[r].claimed.id == trace[n].tables.runs[r].scheduleId
  {
    EveryReachableState(cfg, stored, trace, actions, n);
    hide Step, Enabled, Consistent, GridsTiled, ClaimsOrdered;
    assert SnapshotKept(trace[n].tables.runs[r]);
  }

  /**
   * What is queued or executing is what its schedule's row held at some earlier state: the same revision, payload,
   * directory and timeout, whatever updates and deletes came since.
   */
  lemma {:induction false} ExecutesWhatTheRowHeld(cfg: Config, stored: Tables, trace: seq<Core>, actions: seq<Action>, n: nat, e: Pending)
    requires ValidConfig(cfg) && HistoryKept(cfg.cron, stored) && CompletedCleanly(stored)
    requires IsRun(cfg, trace, actions) && trace[0] == Fresh(stored) && n < |trace| && Holds(trace[n], e)
    ensures OnceHeld(trace, n, e.schedule)
    ensures e.runId in trace[n].tables.runs
    ensures var run := trace[n].tables.runs[e.runId];
            run.payload == e.schedule.payload && run.cwd == e.schedule.cwd && run.timeoutSeconds == e.schedule.timeoutSeconds
  {
    hide HistoryKept, Inv, Step, Enabled;
    EveryReachableState(cfg, stored, trace, actions, n);
    EveryReachableState(cfg, stored, trace, actions, 0);
    ExecutesTheClaimedSnapshot(cfg, trace[n], e);
    if e.runId in trace[0].tables.runs {
      StoredRunsAreOver(stored, e.runId);
      TerminalNeverActive(cfg, trace, actions, 0, n, e.runId);
      assert e.runId !in trace[n].active;
      TerminalIsNotQueued(cfg, trace[n], e.runId);
      assert false;
    }
    RunsOnceHeld(cfg, stored, trace, actions, n, e.runId);
  }

  lemma StoredRunsAreOver(stored: Tables, r: Id)
    requires r in Fresh(stored).tables.runs
    ensures Fresh(stored).tables.runs[r].status != RunStatus.Running && r !in Fresh(stored).active
  {
  }

  // ---------------------------------------------------------------- no slot idles while work waits

  /** The ids a scan mints are unused and differ. */
  ghost predicate MintsFresh(c: Core, action: Action) {
    action.DoWake? ==>
      && (forall d | d in action.due :: action.mint(d.id) !in c.tables.runs)
      && (forall i, j | 0 <= i < j < |action.due| :: action.mint(action.due[i].id) != action.mint(action.due[j].id))
  }

  lemma {:induction false} FreshScanCompletes(cfg: Config, c: Core, action: Action)
    requires ValidConfig(cfg) && Inv(cfg, c) && Enabled(c, action) && action.DoWake? && MintsFresh(c, action)
    ensures ScanCompletes(cfg, c, action.due, action.nowMs, action.mint)
  {
    hide ClaimAll, Consistent, ClaimsRecorded, ClaimsOrdered, GridsTiled;
    forall d | d in action.due
      ensures ValidTrigger(cfg.cron, d.trigger)
    {
      var i :| 0 <= i < |action.due| && action.due[i] == d;
      assert IsDue(c.tables, action.nowMs, action.due[i].id);
    }
    ScanReachesItsEnd(cfg, c.(wake := None, settlingScans := c.settlingScans + 1), action.due, action.nowMs, action.mint);
  }

  /** In every state of every run whose scans mint unused ids, work waits only while all slots are taken. */
  lemma {:induction false} AlwaysWorkConserving(cfg: Config, stored: Tables, trace: seq<Core>, actions: seq<Action>, n: nat)
    requires ValidConfig(cfg) && HistoryKept(cfg.cron, stored) && CompletedCleanly(stored)
    requires IsRun(cfg, trace, actions) && trace[0] == Fresh(stored) && n < |trace|
    requires forall k | 0 <= k < n :: MintsFresh(trace[k], actions[k])
    ensures WorkConserving(cfg, trace[n])
  {
    if n > 0 {
      hide HistoryKept, Inv, Step, Enabled, WorkConserving, MintsFresh, ScanCompletes;
      AlwaysWorkConserving(cfg, stored, trace, actions, n - 1);
      EveryReachableState(cfg, stored, trace, actions, n - 1);
      assert MintsFresh(trace[n - 1], actions[n - 1]);
      if actions[n - 1].DoWake? {
        FreshScanCompletes(cfg, trace[n - 1], actions[n - 1]);
      }
      StepKeepsWorkConserving(cfg, trace[n - 1], actions[n - 1]);
    }
  }

  /** The steps that dispatch. */
  ghost predicate Dispatches(cfg: Config, c: Core, action: Action)
    requires SoundParser(cfg.cron)
  {
    match action
    case DoRunNow(id, runId, cwdExists) => RunNow(cfg, c, id, runId, cwdExists).Success?
    case DoRelease(_, _) => true
    case DoStop(_) => c.stop == NotAsked
    case DoWake(due, nowMs, mint, _) => ScanCompletes(cfg, c, due, nowMs, mint)
    case _ => false
  }

  /** After a scan that a throw cut short, the next accepted run, release, first stop or completed scan makes it so again. */
  lemma {:induction false} DispatchingConserves(cfg: Config, c: Core, action: Action)
    requires ValidConfig(cfg) && Inv(cfg, c) && Enabled(c, action) && Dispatches(cfg, c, action)
    ensures WorkConserving(cfg, Step(cfg, c, action))
  {
    hide Inv, WorkConserving, ScanCompletes, RunNow, Releases, Stop, WakeFires, IsDueList;
    match action
    case DoRunNow(id, runId, cwdExists) => RunNowKeepsInv(cfg, c, id, runId, cwdExists);
    case DoRelease(runId, cwdExists) => ReleaseKeepsInv(cfg, c, runId, cwdExists);
    case DoStop(cwdExists) => FirstStopConserves(cfg, c, cwdExists);
    case DoWake(due, nowMs, mint, cwdExists) => WakeKeepsInv(cfg, c, due, nowMs, mint, cwdExists);
  }

  lemma {:induction false} FirstStopConserves(cfg: Config, c: Core, cwdExists: string -> bool)
    requires ValidConfig(cfg) && Inv(cfg, c) && c.stop == NotAsked
    ensures WorkConserving(cfg, Stop(cfg, c, cwdExists))
  {
    hide Inv, Stop;
    if cfg.policy == Drain {
      DrainStopKeepsInv(cfg, c, cwdExists);
    } else {
      StopMovesRows(cfg, c, cwdExists);
    }
  }

  // ---------------------------------------------------------------- first in, first out along a run

  ghost predicate Before(queue: seq<Pending>, p: Pending, q: Pending) {
    exists i, j :: 0 <= i < j < |queue| && queue[i] == p && queue[j] == q
  }

  lemma {:induction false} BeforeStays(queue: seq<Pending>, k: nat, added: seq<Pending>, p: Pending, q: Pending)
    requires Before(queue, p, q) && k <= |queue| && p in queue[k..]
    requires forall i, j | 0 <= i < j < |queue| :: queue[i] != queue[j]
    ensures Before(queue[k..] + added, p, q)
  {
    var i, j :| 0 <= i < j < |queue| && queue[i] == p && queue[j] == q;
    var a :| 0 <= a < |queue[k..]| && queue[k..][a] == p;
    assert queue[k + a] == p;
    assert k + a == i;
    var rest := queue[k..] + added;
    assert rest[i - k] == p && rest[j - k] == q;
  }

  lemma {:induction false} StepKeepsOrder(cfg: Config, c: Core, action: Action, p: Pending, q: Pending)
    requires ValidConfig(cfg) && Inv(cfg, c) && Enabled(c, action)
    requires Before(c.pending, p, q) && p in Step(cfg, c, action).pending
    ensures Before(Step(cfg, c, action).pending, p, q)
  {
    hide Step, Before, HistoryKept, Enabled, RunIds;
    var k, added := StepIsFifo(cfg, c, action);
    QueuedHaveRows(cfg, c, p, q);
    assert p in c.pending[k..];
    BeforeStays(c.pending, k, added, p, q);
  }

  lemma {:induction false} QueuedHaveRows(cfg: Config, c: Core, p: Pending, q: Pending)
    requires Inv(cfg, c) && Before(c.pending, p, q)
    ensures p in c.pending && q in c.pending && p.runId in c.tables.runs
  {
    hide HistoryKept;
    assert p in c.pending && Holds(c, p) && HasRow(c.tables, p);
  }

  /** A run waits no longer than one queued after it: while it is in the queue the later one is there too, behind it. */
  lemma {:induction false} QueueOrderStays(cfg: Config, trace: seq<Core>, actions: seq<Action>, i: nat, n: nat, p: Pending, q: Pending)
    requires ValidConfig(cfg) && IsRun(cfg, trace, actions) && i <= n < |trace| && Inv(cfg, trace[i])
    requires Before(trace[i].pending, p, q) && p in trace[n].pending
    ensures Before(trace[n].pending, p, q)
    decreases n - i
  {
    hide Inv, Step, Before, Enabled;
    if i < n {
      QueuedHaveRows(cfg, trace[i], p, q);
      RowsOnlyMoveForward(cfg, trace, actions, i, n - 1);
      assert p.runId in trace[n - 1].tables.runs;
      NothingRejoins(cfg, trace[n - 1], actions[n - 1], p);
      QueueOrderStays(cfg, trace, actions, i, n - 1, p, q);
      StepKeepsOrder(cfg, trace[n - 1], actions[n - 1], p, q);
    }
  }

  /** What is queued and not new was queued before. */
  lemma {:induction false} NothingRejoins(cfg: Config, c: Core, action: Action, p: Pending)
    requires ValidConfig(cfg) && Enabled(c, action)
    requires p in Step(cfg, c, action).pending && p.runId in c.tables.runs
    ensures p in c.pending
  {
    hide Step, Enabled, RunIds;
    var k, added := StepIsFifo(cfg, c, action);
  }
}
