/**
 * The scheduler facade (src/scheduler/scheduler.ts): its fields, and one method for each synchronous
 * block. Every method is proved to make exactly the step of `SchedulerSteps` it stands for, so
 * `SchedulerRuns` speaks about this class.
 */
module SchedulerService {
  import opened Wrappers
  import opened Occurrences
  import opened ScheduleTables
  import opened ClaimHistory
  import opened SchedulerSteps
  import opened SchedulerInvariants
  import opened SchedulerRuns
  import StateStore

  /** First in, first out over one list. */
  class FifoQueue<T> {
    var items: seq<T>

    constructor ()
      ensures items == []
    {
      items := [];
    }

    method Enqueue(item: T)
      modifies this
      ensures items == old(items) + [item]
    {
      items := items + [item];
    }

    method Dequeue() returns (item: Option<T>)
      modifies this
      ensures old(items) == [] ==> item == None && items == []
      ensures old(items) != [] ==> item == Some(old(items)[0]) && items == old(items)[1..]
    {
      if items == [] {
        return None;
      }
      item := Some(items[0]);
      items := items[1..];
    }

    method DrainAll() returns (all: seq<T>)
      modifies this
      ensures all == old(items) && items == []
    {
      all := items;
      items := [];
    }
  }

  lemma WakeKeepsItSound(cfg: Config, c: Core, due: seq<Definition>, nowMs: int, mint: Id -> Id, cwdExists: string -> bool)
    requires ValidConfig(cfg) && Inv(cfg, c) && c.wake.Some? && IsDueList(c.tables, nowMs, due)
    ensures Inv(cfg, SchedulerSteps.WakeFires(cfg, c, due, nowMs, mint, cwdExists))
  {
    hide Inv, IsDueList;
    WakeKeepsInv(cfg, c, due, nowMs, mint, cwdExists);
  }

  class Scheduler {
    const cfg: Config
    const state: StateStore.State
    const queue: FifoQueue<Pending>
    var lifecycle: Lifecycle
    var active: map<Id, Execution>
    var owned: set<Id>
    var wake: Option<nat>
    var settlingScans: nat
    var stop: StopPhase

    ghost predicate Ready()
      reads this, state, queue
    {
      ValidConfig(cfg)
    }

    function View(): Core
      reads this, state, queue
    {
      Core(lifecycle, queue.items, active, owned, wake, settlingScans, stop, state.View())
    }

    ghost predicate Valid()
      reads this, state, queue
    {
      Ready() && Inv(cfg, View())
    }

    constructor (cfg: Config, stored: Tables)
      requires ValidConfig(cfg) && HistoryKept(cfg.cron, stored) && CompletedCleanly(stored)
      ensures Valid() && View() == Fresh(stored) && this.cfg == cfg
      ensures fresh(state) && fresh(queue)
    {
      this.cfg := cfg;
      state := new StateStore.State(stored);
      queue := new FifoQueue<Pending>();
      lifecycle, active, owned, wake, settlingScans, stop := Idle, map[], {}, None, 0, NotAsked;
      RecoveryMakesInv(cfg, stored);
    }

    method RequestWake(delayMs: nat)
      modifies this
      ensures View() == SchedulerSteps.RequestWake(old(View()), delayMs)
    {
      if lifecycle != Lifecycle.Running {
        return;
      }
      wake := Some(delayMs);
    }

    method Start()
      requires Valid()
      modifies this
      ensures Valid()
      ensures View() == SchedulerSteps.Start(old(View()))
    {
      hide Inv, HistoryKept, Consistent;
      StepKeepsInv(cfg, View(), DoStart);

      if lifecycle != Idle {
        return;
      }
      lifecycle := Lifecycle.Running;
      RequestWake(0);
    }

    method Add(id: Id, input: Input, nowMs: int) returns (refusal: Option<Refusal>)
      requires Valid()
      modifies this, state
      ensures Valid()
      ensures match SchedulerSteps.Add(cfg, old(View()), id, input, nowMs)
              case Success(c) => refusal == None && View() == c
              case Failure(e) => refusal == Some(e) && View() == old(View())
    {
      hide Inv, HistoryKept, Consistent;
      StepKeepsInv(cfg, View(), DoAdd(id, input, nowMs));

      var normalized := Validate(cfg, input);
      if normalized == None {
        return Some(Invalid);
      }
      var error := state.Create(id, normalized.value, InitialNextRunAt(cfg, normalized.value, nowMs));
      if error.Some? {
        return Some(Store(error.value));
      }
      RequestWake(0);
      return None;
    }

    method Update(id: Id, input: Input, expectedRevision: nat, nowMs: int) returns (refusal: Option<Refusal>)
      requires Valid()
      modifies this, state
      ensures Valid()
      ensures match SchedulerSteps.Update(cfg, old(View()), id, input, expectedRevision, nowMs)
              case Success(c) => refusal == None && View() == c
              case Failure(e) => refusal == Some(e) && View() == old(View())
    {
      hide Inv, HistoryKept, Consistent;
      StepKeepsInv(cfg, View(), DoUpdate(id, input, expectedRevision, nowMs));

      var normalized := Validate(cfg, input);
      if normalized == None {
        return Some(Invalid);
      }
      var error := state.Update(id, normalized.value, expectedRevision, Some(InitialNextRunAt(cfg, normalized.value, nowMs)));
      if error.Some? {
        return Some(Store(error.value));
      }
      RequestWake(0);
      return None;
    }

    method Remove(id: Id) returns (removed: bool)
      requires Valid()
      modifies this, state
      ensures Valid()
      ensures removed == Live(old(View()).tables, id)
      ensures View() == SchedulerSteps.Remove(old(View()), id)
    {
      hide Inv, HistoryKept, Consistent;
      StepKeepsInv(cfg, View(), DoRemove(id));

      removed := state.Delete(id);
      if removed {
        RequestWake(0);
      }
    }

    method RunNow(id: Id, runId: Id, cwdExists: string -> bool) returns (refusal: Option<Refusal>)
      requires Valid()
      modifies this, state, queue
      ensures Valid()
      ensures match SchedulerSteps.RunNow(cfg, old(View()), id, runId, cwdExists)
              case Success(c) => refusal == None && View() == c
              case Failure(e) => refusal == Some(e) && View() == old(View())
    {
      hide HistoryKept, Consistent;
      assert KeysMatch(state.View()) by {
        StoredKeysMatch(cfg.cron, state.View());
      }
      hide Inv, CreateRun, SchedulerSteps.Pump;
      StepKeepsInv(cfg, View(), DoRunNow(id, runId, cwdExists));

      if lifecycle == Stopping || lifecycle == Lifecycle.Stopped {
        return Some(Refusal.Stopped);
      }
      var schedule := ScheduleById(state.View(), id);
      if schedule == None {
        return Some(NoSuchSchedule);
      }
      if id in owned {
        return Some(AlreadyRunning);
      }
      owned := owned + {id};
      var error := state.CreateRun(runId, schedule.value);
      if error.Some? {
        owned := owned - {id};
        assert owned == old(owned);
        return Some(Store(error.value));
      }
      queue.Enqueue(Pending(schedule.value, runId, None));
      Pump(cwdExists);
      return None;
    }

    method Pump(cwdExists: string -> bool)
      modifies this, state, queue
      ensures View() == SchedulerSteps.Pump(cfg, old(View()), cwdExists)
    {
      var mayDispatch := lifecycle != Lifecycle.Stopped && (lifecycle != Stopping || cfg.policy == Drain);
      if !mayDispatch {
        return;
      }
      while |active| < cfg.concurrency && |queue.items| > 0
        invariant DispatchAll(cfg, View(), cwdExists) == DispatchAll(cfg, old(View()), cwdExists)
        decreases |queue.items|
      {
        var pending := queue.Dequeue();
        var settled := BeginExecution(pending.value, cwdExists);
        active := active[pending.value.runId := Execution(pending.value, None, settled)];
      }
      ReleaseWaitersIfIdle();
    }

    /** `execute` up to its first wait; true when it ended there, with the row failed. */
    method BeginExecution(pending: Pending, cwdExists: string -> bool) returns (settled: bool)
      modifies state
      ensures settled == StartRefusal(cfg, pending.schedule, cwdExists).Some?
      ensures state.View() ==
                if settled
                then Finished(old(state.View()), pending.runId, Outcome(Failed, None, StartRefusal(cfg, pending.schedule, cwdExists)))
                else old(state.View())
    {
      if !cwdExists(pending.schedule.cwd) {
        var _ := state.Finish(pending.runId, Outcome(Failed, None, Some(CwdMissing(pending.schedule.cwd))));
        return true;
      }
      if pending.schedule.payload.Prompt? && !cfg.promptRunner {
        var _ := state.Finish(pending.runId, Outcome(Failed, None, Some(NoPromptRunner)));
        return true;
      }
      return false;
    }

    method ReleaseWaitersIfIdle()
      modifies this
      ensures View() == ReleaseIfIdle(old(View()))
    {
      if |active| > 0 || |queue.items| > 0 {
        return;
      }
      if stop == Waiting {
        stop := Released;
      }
    }

    /** The wake timer's callback with the scan it starts. */
    method WakeFires(nowMs: int, mint: Id -> Id, cwdExists: string -> bool) returns (ghost due: seq<Definition>)
      requires Valid() && wake.Some?
      modifies this, state, queue
      ensures Valid()
      ensures IsDueList(old(View()).tables, nowMs, due)
      ensures View() == SchedulerSteps.WakeFires(cfg, old(View()), due, nowMs, mint, cwdExists)
    {
      hide Consistent, HistoryKept;
      assert KeysMatch(state.View()) by {
        StoredKeysMatch(cfg.cron, state.View());
      }
      hide Inv, IsDueList, SchedulerSteps.ScanDue, KeysMatch, ValidConfig;
      ghost var before := View();
      wake := None;
      settlingScans := settlingScans + 1;
      due := ScanDue(nowMs, mint, cwdExists);
      WakeKeepsItSound(cfg, before, due, nowMs, mint, cwdExists);
    }

    method ScanDue(nowMs: int, mint: Id -> Id, cwdExists: string -> bool) returns (due: seq<Definition>)
      requires ValidConfig(cfg) && KeysMatch(state.View())
      modifies this, state, queue
      ensures IsDueList(old(View()).tables, nowMs, due)
      ensures View() == SchedulerSteps.ScanDue(cfg, old(View()), due, nowMs, mint, cwdExists)
    {
      due := state.ListDue(nowMs);
      if lifecycle != Lifecycle.Running {
        return;
      }
      var complete := ClaimDue(due, nowMs, mint);
      if complete {
        Pump(cwdExists);
      }
    }

    /** The scan's loop; false when a throw left it. */
    method ClaimDue(due: seq<Definition>, nowMs: int, mint: Id -> Id) returns (complete: bool)
      requires ValidConfig(cfg)
      modifies this, state, queue
      ensures (View(), complete) == ClaimAll(cfg, old(View()), due, nowMs, mint)
    {
      var i := 0;
      while i < |due|
        invariant i <= |due|
        invariant ClaimAll(cfg, View(), due[i..], nowMs, mint) == ClaimAll(cfg, old(View()), due, nowMs, mint)
      {
        var schedule := due[i];
        i := i + 1;
        assert due[i - 1..][1..] == due[i..];
        if lifecycle != Lifecycle.Running || schedule.id in owned || schedule.nextRunAt == None {
          continue;
        }
        var scheduledMs := schedule.nextRunAt.value;
        var missed := CountMissedOccurrences(cfg.cron, schedule.trigger, scheduledMs, nowMs);
        if missed.Failure? {
          return false;
        }
        var nextRunAt := ComputeNextRunAt(cfg.cron, schedule.trigger, nowMs);
        NextIsLeastOccurrence(cfg.cron, schedule.trigger, nowMs);
        if nextRunAt.Failure? {
          return false;
        }
        var context := Context(scheduledMs, if nowMs > scheduledMs then nowMs - scheduledMs else 0, missed.value);
        var remainsEnabled := !schedule.trigger.At? && schedule.enabled;
        var runId := mint(schedule.id);
        var claim := state.Claim(runId, schedule, nextRunAt.value, remainsEnabled, context);
        if claim.Failure? {
          return false;
        }
        if !claim.value {
          continue;
        }
        owned := owned + {schedule.id};
        queue.Enqueue(Pending(schedule, runId, Some(context)));
      }
      return true;
    }

    method ScanSettles()
      requires settlingScans > 0
      requires Valid()
      modifies this
      ensures Valid()
      ensures View() == SchedulerSteps.ScanSettles(cfg, old(View()))
    {
      hide Inv, HistoryKept, Consistent;
      StepKeepsInv(cfg, View(), DoScanSettles);

      settlingScans := settlingScans - 1;
      RequestWake(cfg.wakeIntervalMs);
    }

    method TimesOut(runId: Id)
      requires Executing(View(), runId)
      requires Valid()
      modifies this
      ensures Valid()
      ensures View() == SchedulerSteps.TimesOut(old(View()), runId)
    {
      hide Inv, HistoryKept, Consistent;
      StepKeepsInv(cfg, View(), DoTimeOut(runId));

      if active[runId].abort == None {
        active := active[runId := active[runId].(abort := Some(TimedOut))];
      }
    }

    /** The rest of `execute`, once the runner's promise has settled. */
    method Ends(runId: Id, ending: Ending)
      requires Executing(View(), runId)
      requires Valid()
      modifies this, state
      ensures Valid()
      ensures View() == SchedulerSteps.Ends(cfg, old(View()), runId, ending)
    {
      hide Inv, HistoryKept, Consistent;
      StepKeepsInv(cfg, View(), DoEnd(runId, ending));

      var execution := active[runId];
      var cancelling := lifecycle == Stopping && cfg.policy == Cancel;
      var outcome: Outcome;
      match ending {
        case Returned(code) =>
          if execution.abort.Some? {
            if cancelling {
              outcome := Outcome(Interrupted, None, execution.abort);
            } else {
              outcome := Outcome(Failed, Some(code), execution.abort);
            }
          } else if code == 0 {
            outcome := Outcome(Completed, Some(0), None);
          } else {
            outcome := Outcome(Failed, Some(code), Some(Exited(code)));
          }
        case Rejected(message) =>
          if execution.abort.Some? && cancelling {
            outcome := Outcome(Interrupted, None, Some(Thrown(message)));
          } else {
            outcome := Outcome(Failed, None, Some(Thrown(message)));
          }
      }
      var _ := state.Finish(runId, outcome);
      active := active[runId := execution.(settled := true)];
    }

    method Releases(runId: Id, cwdExists: string -> bool)
      requires runId in active && active[runId].settled
      requires Valid()
      modifies this, state, queue
      ensures Valid()
      ensures View() == SchedulerSteps.Releases(cfg, old(View()), runId, cwdExists)
    {
      hide Inv, HistoryKept, Consistent;
      StepKeepsInv(cfg, View(), DoRelease(runId, cwdExists));

      owned := owned - {active[runId].pending.schedule.id};
      active := active - {runId};
      Pump(cwdExists);
      ReleaseWaitersIfIdle();
      if lifecycle == Lifecycle.Running {
        RequestWake(0);
      }
    }

    method CancelQueued()
      modifies this, state, queue
      ensures View() == InterruptQueued(old(View()))
    {
      ghost var before := View();
      var queued := queue.DrainAll();
      var i := 0;
      while i < |queued|
        invariant i <= |queued|
        invariant InterruptQueued(View().(pending := queued[i..])) == InterruptQueued(before)
        invariant queue.items == [] && View() == before.(pending := [], owned := owned, tables := state.View())
      {
        var _ := state.Finish(queued[i].runId, Outcome(Interrupted, None, Some(StoppedBeforeExecution)));
        owned := owned - {queued[i].schedule.id};
        assert queued[i..][1..] == queued[i + 1..];
        i := i + 1;
      }
      assert queued[i..] == [];
    }

    /** `stop` up to its wait; a second call changes nothing. */
    method Stop(cwdExists: string -> bool)
      requires Valid()
      modifies this, state, queue
      ensures Valid()
      ensures View() == SchedulerSteps.Stop(cfg, old(View()), cwdExists)
    {
      hide Inv, HistoryKept, Consistent, SchedulerSteps.Pump, FinishRun;
      StepKeepsInv(cfg, View(), DoStop(cwdExists));

      if stop != NotAsked {
        return;
      }
      lifecycle := Stopping;
      wake := None;
      if cfg.policy == Cancel {
        CancelQueued();
        active := map r | r in active :: Aborted(active[r], SchedulerStopped);
      } else {
        Pump(cwdExists);
      }
      if |active| == 0 && |queue.items| == 0 {
        stop := Released;
      } else {
        stop := Waiting;
      }
    }

    method StopResumes()
      requires stop == Released
      requires Valid()
      modifies this
      ensures Valid()
      ensures View() == SchedulerSteps.StopResumes(old(View()))
    {
      hide Inv, HistoryKept, Consistent;
      StepKeepsInv(cfg, View(), DoStopResumes);

      lifecycle := Lifecycle.Stopped;
      stop := Done;
    }
  }
}
