/**
 * The schedule and run tables. Each function is one transaction of the database, given as the tables
 * it leaves; a thrown error rolls back, so a `Failure` leaves the tables as they were.
 */
module ScheduleTables {
  import opened Wrappers
  import opened Occurrences

  /** Row keys are opaque; the code compares them and, in `listDueSchedules`, orders by them. */
  type Id = nat

  datatype Payload =
    | Prompt(prompt: string)
    | Command(argv: seq<string>)

  /** What the owner sends to create or replace a schedule. */
  datatype Input = Input(name: string, enabled: bool, trigger: Trigger, payload: Payload, cwd: string, timeoutSeconds: int)

  datatype Definition = Definition(
    id: Id, name: string, enabled: bool, trigger: Trigger, payload: Payload, cwd: string, timeoutSeconds: int,
    revision: nat, nextRunAt: Option<int>)

  /**
   * `since` and `firstDue` are history, not columns: the revision that set the present definition and
   * the due time it was given.
   */
  datatype ScheduleRow = ScheduleRow(def: Definition, deleted: bool, since: nat, firstDue: Option<int>)

  datatype RunStatus = Running | Completed | Failed | Interrupted

  datatype Context = Context(scheduledFor: int, startedAfterMs: int, missedOccurrences: int)

  /** `claimed` and `since` are history: the definition the run was created from, and that row's `since`. */
  datatype RunRow = RunRow(
    scheduleId: Id, scheduled: bool, payload: Payload, cwd: string, timeoutSeconds: int,
    status: RunStatus, scheduledFor: Option<int>, context: Option<Context>,
    exitCode: Option<int>, error: Option<RunError>,
    claimed: Definition, since: nat)

  /** The error texts the scheduler writes, one constructor each. */
  datatype RunError =
    | StartupRecovery
    | StoppedBeforeExecution
    | SchedulerStopped
    | TimedOut
    | CwdMissing(cwd: string)
    | NoPromptRunner
    | Exited(exitCode: int)
    | Thrown(message: string)

  datatype Outcome = Outcome(status: RunStatus, exitCode: Option<int>, error: Option<RunError>)

  datatype Tables = Tables(schedules: map<Id, ScheduleRow>, runs: map<Id, RunRow>)

  datatype StoreError = Constraint | RevisionConflict | NotRunning

  function Defined(id: Id, input: Input, revision: nat, nextRunAt: Option<int>): Definition {
    Definition(id, input.name, input.enabled, input.trigger, input.payload, input.cwd, input.timeoutSeconds,
               revision, nextRunAt)
  }

  /** The name column is unique over every row, deleted ones too. */
  predicate NameTaken(t: Tables, name: string, except: Option<Id>) {
    exists id :: id in t.schedules && except != Some(id) && t.schedules[id].def.name == name
  }

  predicate Live(t: Tables, id: Id) {
    id in t.schedules && !t.schedules[id].deleted
  }

  function ScheduleById(t: Tables, id: Id): Option<Definition> {
    if Live(t, id) then Some(t.schedules[id].def) else None
  }

  function CreateSchedule(t: Tables, id: Id, input: Input, nextRunAt: Option<int>): Result<Tables, StoreError> {
    if id in t.schedules || NameTaken(t, input.name, None) then Failure(Constraint)
    else Success(t.(schedules := t.schedules[id := ScheduleRow(Defined(id, input, 1, nextRunAt), false, 1, nextRunAt)]))
  }

  function UpdateSchedule(t: Tables, id: Id, input: Input, expectedRevision: nat, nextRunAt: Option<int>)
    : Result<Tables, StoreError>
  {
    if !Live(t, id) || t.schedules[id].def.revision != expectedRevision then Failure(RevisionConflict)
    else if NameTaken(t, input.name, Some(id)) then Failure(Constraint)
    else
      var next := Defined(id, input, expectedRevision + 1, nextRunAt);
      Success(t.(schedules := t.schedules[id := ScheduleRow(next, false, next.revision, nextRunAt)]))
  }

  /** The due time an update stores: the one it names, or the stored one when it names none. */
  function DueAfterUpdate(t: Tables, id: Id, nextRunAt: Option<Option<int>>): Option<int> {
    if nextRunAt.Some? then nextRunAt.value else if id in t.schedules then t.schedules[id].def.nextRunAt else None
  }

  function DeleteSchedule(t: Tables, id: Id): Tables {
    if !Live(t, id) then t
    else
      var row := t.schedules[id];
      t.(schedules := t.schedules[id := row.(def := row.def.(enabled := false, revision := row.def.revision + 1),
                                            deleted := true)])
  }

  /** The optimistic guard of a claim: the row is still the enabled one that was read, with the same due time. */
  predicate Claimable(t: Tables, schedule: Definition, scheduledFor: int) {
    && Live(t, schedule.id)
    && t.schedules[schedule.id].def.enabled
    && t.schedules[schedule.id].def.revision == schedule.revision
    && t.schedules[schedule.id].def.nextRunAt == Some(scheduledFor)
  }

  function Advanced(row: ScheduleRow, nextRunAt: Option<int>, enabled: bool): ScheduleRow {
    row.(def := row.def.(nextRunAt := nextRunAt, enabled := enabled, revision := row.def.revision + 1))
  }

  function NewRun(schedule: Definition, since: nat, context: Option<Context>): RunRow {
    RunRow(schedule.id, context.Some?, schedule.payload, schedule.cwd, schedule.timeoutSeconds, Running,
           if context.Some? then Some(context.value.scheduledFor) else None, context, None, None, schedule, since)
  }

  /** `Success(None)` when the guard fails. */
  function ClaimScheduledRun(t: Tables, runId: Id, schedule: Definition, nextRunAt: Option<int>, enabled: bool, context: Context)
    : Result<Option<Tables>, StoreError>
  {
    if !Claimable(t, schedule, context.scheduledFor) then Success(None)
    else if runId in t.runs then Failure(Constraint)
    else
      var row := t.schedules[schedule.id];
      Success(Some(Tables(t.schedules[schedule.id := Advanced(row, nextRunAt, enabled)],
                          t.runs[runId := NewRun(schedule, row.since, Some(context))])))
  }

  /** A manual run. */
  function CreateRun(t: Tables, runId: Id, schedule: Definition): Result<Tables, StoreError> {
    if runId in t.runs || schedule.id !in t.schedules then Failure(Constraint)
    else Success(t.(runs := t.runs[runId := NewRun(schedule, t.schedules[schedule.id].since, None)]))
  }

  function Settled(run: RunRow, outcome: Outcome): RunRow {
    run.(status := outcome.status, exitCode := outcome.exitCode, error := outcome.error)
  }

  predicate IsRunning(t: Tables, runId: Id) {
    runId in t.runs && t.runs[runId].status == Running
  }

  function FinishRun(t: Tables, runId: Id, outcome: Outcome): Result<Tables, StoreError> {
    if !IsRunning(t, runId) then Failure(NotRunning)
    else Success(t.(runs := t.runs[runId := Settled(t.runs[runId], outcome)]))
  }

  function InterruptRunning(t: Tables): Tables {
    t.(runs := map r | r in t.runs ::
         if t.runs[r].status == Running then t.runs[r].(status := Interrupted, error := Some(StartupRecovery)) else t.runs[r])
  }

  ghost predicate KeysMatch(t: Tables) {
    forall id | id in t.schedules :: t.schedules[id].def.id == id
  }

  // ---------------------------------------------------------------- due schedules

  predicate IsDue(t: Tables, nowMs: int, id: Id) {
    && Live(t, id)
    && t.schedules[id].def.enabled
    && t.schedules[id].def.nextRunAt.Some?
    && t.schedules[id].def.nextRunAt.value <= nowMs
  }

  function DueIds(t: Tables, nowMs: int): set<Id> {
    set id | id in t.schedules && IsDue(t, nowMs, id)
  }

  predicate Earlier(d: Definition, e: Definition)
    requires d.nextRunAt.Some? && e.nextRunAt.Some?
  {
    d.nextRunAt.value < e.nextRunAt.value || (d.nextRunAt == e.nextRunAt && d.id < e.id)
  }

  /** `due` lists exactly the due schedules, ordered by due time and then by id. */
  ghost predicate IsDueList(t: Tables, nowMs: int, due: seq<Definition>) {
    && (forall i | 0 <= i < |due| :: IsDue(t, nowMs, due[i].id) && t.schedules[due[i].id].def == due[i])
    && (forall i, j | 0 <= i < j < |due| :: Earlier(due[i], due[j]))
    && (forall id | id in t.schedules && IsDue(t, nowMs, id) :: t.schedules[id].def in due)
  }

  /** The order leaves nothing open: there is one such list. */
  lemma {:induction false} DueListIsUnique(t: Tables, nowMs: int, due: seq<Definition>, other: seq<Definition>)
    requires IsDueList(t, nowMs, due) && IsDueList(t, nowMs, other)
    ensures due == other
  {
    SameSortedPrefix(t, nowMs, due, other, |due|);
    SameSortedPrefix(t, nowMs, other, due, |other|);
  }

  lemma {:induction false} SameSortedPrefix(t: Tables, nowMs: int, due: seq<Definition>, other: seq<Definition>, n: nat)
    requires IsDueList(t, nowMs, due) && IsDueList(t, nowMs, other) && n <= |due|
    ensures n <= |other| && due[..n] == other[..n]
  {
    if n > 0 {
      var last := n - 1;
      SameSortedPrefix(t, nowMs, due, other, last);
      var at := PositionIn(t, nowMs, other, due[last]);
      NotBefore(due, other, last, at);
      var back := PositionIn(t, nowMs, due, other[last]);
      NotBefore(other, due, last, back);
      assert due[last] == other[last];
      assert due[..n] == due[..last] + [due[last]] && other[..n] == other[..last] + [other[last]];
    }
  }

  lemma PositionIn(t: Tables, nowMs: int, due: seq<Definition>, d: Definition) returns (at: nat)
    requires IsDueList(t, nowMs, due)
    requires IsDue(t, nowMs, d.id) && t.schedules[d.id].def == d
    ensures at < |due| && due[at] == d
  {
    at :| 0 <= at < |due| && due[at] == d;
  }

  lemma NotBefore(due: seq<Definition>, other: seq<Definition>, last: nat, at: nat)
    requires last < |due| && at < |other| && other[at] == due[last]
    requires last <= |other| && due[..last] == other[..last]
    requires forall d | d in due :: d.nextRunAt.Some?
    requires forall i, j | 0 <= i < j < |due| :: Earlier(due[i], due[j])
    ensures last <= at
  {
  }
}

/** The daemon's one handle on the tables (src/state/state.ts over src/state/database.ts). */
module StateStore {
  import opened Wrappers
  import opened Occurrences
  import opened ScheduleTables

  class State {
    var schedules: map<Id, ScheduleRow>
    var runs: map<Id, RunRow>

    function View(): Tables
      reads this
    {
      Tables(schedules, runs)
    }

    /** Opening the database interrupts every run a previous process left running. */
    constructor (stored: Tables)
      ensures View() == InterruptRunning(stored)
    {
      var recovered := InterruptRunning(stored);
      schedules := recovered.schedules;
      runs := recovered.runs;
    }

    method Create(id: Id, input: Input, nextRunAt: Option<int>) returns (error: Option<StoreError>)
      modifies this
      ensures match ScheduleTables.CreateSchedule(old(View()), id, input, nextRunAt)
              case Success(t) => error == None && View() == t
              case Failure(e) => error == Some(e) && View() == old(View())
    {
      if id in schedules || NameTaken(View(), input.name, None) {
        return Some(Constraint);
      }
      schedules := schedules[id := ScheduleRow(Defined(id, input, 1, nextRunAt), false, 1, nextRunAt)];
      return None;
    }

    /** `nextRunAt` is `None` when the caller leaves the due time out. */
    method Update(id: Id, input: Input, expectedRevision: nat, nextRunAt: Option<Option<int>>)
      returns (error: Option<StoreError>)
      modifies this
      ensures var due := DueAfterUpdate(old(View()), id, nextRunAt);
              match ScheduleTables.UpdateSchedule(old(View()), id, input, expectedRevision, due)
              case Success(t) => error == None && View() == t
              case Failure(e) => error == Some(e) && View() == old(View())
    {
      var existing := ScheduleById(View(), id);
      if existing == None || existing.value.revision != expectedRevision {
        return Some(RevisionConflict);
      }
      if NameTaken(View(), input.name, Some(id)) {
        return Some(Constraint);
      }
      var due := if nextRunAt.Some? then nextRunAt.value else existing.value.nextRunAt;
      var next := Defined(id, input, expectedRevision + 1, due);
      schedules := schedules[id := ScheduleRow(next, false, next.revision, due)];
      return None;
    }

    method Delete(id: Id) returns (deleted: bool)
      modifies this
      ensures deleted == Live(old(View()), id)
      ensures View() == ScheduleTables.DeleteSchedule(old(View()), id)
    {
      deleted := id in schedules && !schedules[id].deleted;
      if deleted {
        var def := schedules[id].def;
        schedules := schedules[id := schedules[id].(
          def := def.(enabled := false, revision := def.revision + 1), deleted := true)];
      }
    }

    method Claim(runId: Id, schedule: Definition, nextRunAt: Option<int>, enabled: bool, context: Context)
      returns (result: Result<bool, StoreError>)
      modifies this
      ensures match ClaimScheduledRun(old(View()), runId, schedule, nextRunAt, enabled, context)
              case Success(None) => result == Success(false) && View() == old(View())
              case Success(Some(t)) => result == Success(true) && View() == t
              case Failure(e) => result == Failure(e) && View() == old(View())
    {
      if !Claimable(View(), schedule, context.scheduledFor) {
        return Success(false);
      }
      if runId in runs {
        return Failure(Constraint);
      }
      var row := schedules[schedule.id];
      schedules := schedules[schedule.id := Advanced(row, nextRunAt, enabled)];
      runs := runs[runId := NewRun(schedule, row.since, Some(context))];
      return Success(true);
    }

    method CreateRun(runId: Id, schedule: Definition) returns (error: Option<StoreError>)
      modifies this
      ensures match ScheduleTables.CreateRun(old(View()), runId, schedule)
              case Success(t) => error == None && View() == t
              case Failure(e) => error == Some(e) && View() == old(View())
    {
      if runId in runs || schedule.id !in schedules {
        return Some(Constraint);
      }
      runs := runs[runId := NewRun(schedule, schedules[schedule.id].since, None)];
      return None;
    }

    method Finish(runId: Id, outcome: Outcome) returns (error: Option<StoreError>)
      modifies this
      ensures match FinishRun(old(View()), runId, outcome)
              case Success(t) => error == None && View() == t
              case Failure(e) => error == Some(e) && View() == old(View())
    {
      if !IsRunning(View(), runId) {
        return Some(NotRunning);
      }
      runs := runs[runId := Settled(runs[runId], outcome)];
      return None;
    }

    /** The due schedules by due time and id, taken out of the table one least row at a time. */
    method ListDue(nowMs: int) returns (due: seq<Definition>)
      requires KeysMatch(View())
      ensures IsDueList(View(), nowMs, due)
    {
      due := [];
      var rest := DueIds(View(), nowMs);
      while rest != {}
        invariant rest <= DueIds(View(), nowMs)
        invariant forall i | 0 <= i < |due| ::
                    IsDue(View(), nowMs, due[i].id) && due[i].id !in rest && schedules[due[i].id].def == due[i]
        invariant forall i, j | 0 <= i < j < |due| :: Earlier(due[i], due[j])
        invariant forall i, id | 0 <= i < |due| && id in rest :: Earlier(due[i], schedules[id].def)
        invariant forall id | id in schedules && IsDue(View(), nowMs, id) :: id in rest || schedules[id].def in due
        invariant forall id | id in rest :: id in schedules && IsDue(View(), nowMs, id) && schedules[id].def.id == id
        decreases |rest|
      {
        var first := Least(rest);
        due := due + [schedules[first].def];
        rest := rest - {first};
      }
    }

    method Least(ids: set<Id>) returns (first: Id)
      requires ids != {}
      requires forall id | id in ids :: id in schedules && schedules[id].def.nextRunAt.Some? && schedules[id].def.id == id
      ensures first in ids
      ensures forall id | id in ids && id != first :: Earlier(schedules[first].def, schedules[id].def)
    {
      first :| first in ids;
      var rest := ids - {first};
      while rest != {}
        invariant rest <= ids && first in ids && first !in rest
        invariant forall id | id in ids - rest && id != first :: Earlier(schedules[first].def, schedules[id].def)
        decreases |rest|
      {
        var id :| id in rest;
        rest := rest - {id};
        if Earlier(schedules[id].def, schedules[first].def) {
          first := id;
        }
      }
    }
  }
}
