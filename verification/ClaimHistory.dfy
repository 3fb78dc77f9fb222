/**
 * What the tables keep over every run: each claim is the only one of its revision, due times ascend
 * between updates, and an `every` schedule's claims and missed counts tile its grid.
 */
module ClaimHistory {
  import opened Wrappers
  import opened Occurrences
  import opened ScheduleTables

  /** The stored schedule rows: keyed by id, `since` a revision already reached. */
  ghost predicate RowsWellFormed(t: Tables) {
    && KeysMatch(t)
    && (forall id | id in t.schedules :: 1 <= t.schedules[id].since <= t.schedules[id].def.revision)
    && (forall r | r in t.runs :: t.runs[r].scheduleId in t.schedules)
  }

  ghost predicate TriggersValid(cron: CronParser, t: Tables) {
    forall id | id in t.schedules :: ValidTrigger(cron, t.schedules[id].def.trigger)
  }

  /** A run row holds the payload, cwd and timeout of the definition it was created from. */
  ghost predicate SnapshotKept(run: RunRow) {
    && run.claimed.id == run.scheduleId
    && run.payload == run.claimed.payload
    && run.cwd == run.claimed.cwd
    && run.timeoutSeconds == run.claimed.timeoutSeconds
  }

  /** A claim against the row it came from, which has moved on since. */
  ghost predicate ClaimBehind(row: ScheduleRow, run: RunRow) {
    && run.claimed.revision < row.def.revision
    && run.since <= run.claimed.revision
    && run.since <= row.since
    && run.scheduledFor.Some?
    && run.scheduledFor == run.claimed.nextRunAt
    && run.context.Some?
    && run.context.value.scheduledFor == run.scheduledFor.value
    && run.context.value.missedOccurrences >= 0
    && (run.since == row.since ==>
          && run.claimed.trigger == row.def.trigger
          && (row.def.nextRunAt.Some? ==> run.scheduledFor.value < row.def.nextRunAt.value)
          && (row.def.trigger.At? ==> !row.def.enabled))
  }

  function ClaimEnd(run: RunRow): int
    requires run.claimed.trigger.Every? && run.scheduledFor.Some? && run.context.Some?
  {
    run.scheduledFor.value + (run.context.value.missedOccurrences + 1) * run.claimed.trigger.everyMs
  }

  /** Two claims of one schedule: never of one revision, and in due order when no update came between. */
  ghost predicate ClaimBefore(run: RunRow, later: RunRow)
    requires run.scheduledFor.Some? && run.context.Some? && later.scheduledFor.Some?
  {
    && run.claimed.revision != later.claimed.revision
    && (run.since == later.since && run.claimed.revision < later.claimed.revision ==>
          && run.scheduledFor.value < later.scheduledFor.value
          && !run.claimed.trigger.At?
          && (run.claimed.trigger.Every? ==> ClaimEnd(run) <= later.scheduledFor.value))
  }

  ghost predicate IsClaim(t: Tables, r: Id) {
    r in t.runs && t.runs[r].scheduled
  }

  ghost predicate ClaimsRecorded(t: Tables)
    requires RowsWellFormed(t)
  {
    && (forall r | r in t.runs :: SnapshotKept(t.runs[r]))
    && (forall r | IsClaim(t, r) :: ClaimBehind(t.schedules[t.runs[r].scheduleId], t.runs[r]))
  }

  ghost predicate ClaimsOrdered(t: Tables)
    requires RowsWellFormed(t) && ClaimsRecorded(t)
  {
    forall r, q | IsClaim(t, r) && IsClaim(t, q) && r != q && t.runs[r].scheduleId == t.runs[q].scheduleId ::
      ClaimBefore(t.runs[r], t.runs[q])
  }

  /** The claims of the present definition of an `every` schedule. */
  ghost predicate PresentClaim(t: Tables, id: Id, r: Id)
    requires id in t.schedules
  {
    IsClaim(t, r) && t.runs[r].scheduleId == id && t.runs[r].since == t.schedules[id].since
  }

  ghost predicate Covers(run: RunRow, point: int)
    requires run.claimed.trigger.Every? && run.scheduledFor.Some? && run.context.Some?
  {
    run.scheduledFor.value <= point < ClaimEnd(run)
  }

  ghost predicate Tiled(t: Tables, id: Id)
    requires RowsWellFormed(t) && ClaimsRecorded(t)
    requires id in t.schedules && t.schedules[id].def.trigger.Every?
  {
    var row := t.schedules[id];
    var (every, anchor) := (row.def.trigger.everyMs, row.def.trigger.anchorMs);
    row.def.nextRunAt.Some? ==>
      && row.firstDue.Some?
      && OnGrid(every, anchor, row.firstDue.value)
      && OnGrid(every, anchor, row.def.nextRunAt.value)
      && row.firstDue.value <= row.def.nextRunAt.value
      && (forall r | PresentClaim(t, id, r) ::
            && OnGrid(every, anchor, t.runs[r].scheduledFor.value)
            && row.firstDue.value <= t.runs[r].scheduledFor.value
            && ClaimEnd(t.runs[r]) <= row.def.nextRunAt.value)
      && (forall point | row.firstDue.value <= point < row.def.nextRunAt.value :: Counted(t, id, point))
  }

  ghost predicate Counted(t: Tables, id: Id, point: int)
    requires RowsWellFormed(t) && ClaimsRecorded(t)
    requires id in t.schedules && t.schedules[id].def.trigger.Every?
  {
    exists r :: PresentClaim(t, id, r) && Covers(t.runs[r], point)
  }

  ghost predicate GridsTiled(t: Tables)
    requires RowsWellFormed(t) && ClaimsRecorded(t)
  {
    forall id | id in t.schedules && t.schedules[id].def.trigger.Every? :: Tiled(t, id)
  }

  ghost predicate HistoryKept(cron: CronParser, t: Tables) {
    && RowsWellFormed(t)
    && TriggersValid(cron, t)
    && ClaimsRecorded(t)
    && ClaimsOrdered(t)
    && GridsTiled(t)
  }

  // ---------------------------------------------------------------- what the history says

  /** No two scheduled runs come from one schedule at one revision. */
  lemma ClaimedOncePerRevision(cron: CronParser, t: Tables, r: Id, q: Id)
    requires HistoryKept(cron, t) && IsClaim(t, r) && IsClaim(t, q)
    requires t.runs[r].scheduleId == t.runs[q].scheduleId
    requires t.runs[r].claimed.revision == t.runs[q].claimed.revision
    ensures r == q
  {
  }

  /** An `at` definition is claimed at most once. */
  lemma AtClaimedOnce(cron: CronParser, t: Tables, r: Id, q: Id)
    requires HistoryKept(cron, t) && IsClaim(t, r) && IsClaim(t, q)
    requires t.runs[r].scheduleId == t.runs[q].scheduleId && t.runs[r].since == t.runs[q].since
    requires t.runs[r].claimed.trigger.At? && t.runs[q].claimed.trigger.At?
    ensures r == q
  {
  }

  /** Between updates, later claims have strictly later due times, whatever the clock did. */
  lemma DueTimesAscend(cron: CronParser, t: Tables, r: Id, q: Id)
    requires HistoryKept(cron, t) && IsClaim(t, r) && IsClaim(t, q)
    requires t.runs[r].scheduleId == t.runs[q].scheduleId && t.runs[r].since == t.runs[q].since
    ensures t.runs[r].claimed.revision < t.runs[q].claimed.revision
        <==> t.runs[r].scheduledFor.value < t.runs[q].scheduledFor.value
  {
    if r != q {
      assert ClaimBefore(t.runs[r], t.runs[q]) && ClaimBefore(t.runs[q], t.runs[r]);
    }
  }

  /**
   * Conservation: every grid point from the first due time to the next one belongs to exactly one
   * claim, which either claimed that point or counted it missed.
   */
  lemma GridPointCountedOnce(cron: CronParser, t: Tables, id: Id, k: nat)
    requires HistoryKept(cron, t)
    requires id in t.schedules && t.schedules[id].def.trigger.Every?
    requires t.schedules[id].def.nextRunAt.Some? && t.schedules[id].firstDue.Some?
    requires var trigger := t.schedules[id].def.trigger;
             t.schedules[id].firstDue.value <= GridPoint(trigger.everyMs, trigger.anchorMs, k) < t.schedules[id].def.nextRunAt.value
    ensures var trigger := t.schedules[id].def.trigger;
            var point := GridPoint(trigger.everyMs, trigger.anchorMs, k);
            exists r :: && PresentClaim(t, id, r)
                        && Covers(t.runs[r], point)
                        && forall q | PresentClaim(t, id, q) && Covers(t.runs[q], point) :: q == r
  {
    var trigger := t.schedules[id].def.trigger;
    var point := GridPoint(trigger.everyMs, trigger.anchorMs, k);
    assert Tiled(t, id) && Counted(t, id, point);
    var r :| PresentClaim(t, id, r) && Covers(t.runs[r], point);
    forall q | PresentClaim(t, id, q) && Covers(t.runs[q], point)
      ensures q == r
    {
    }
  }

  // ---------------------------------------------------------------- what keeps it

  lemma CreateKeepsClaims(cron: CronParser, t: Tables, id: Id, input: Input, nextRunAt: Option<int>)
    requires HistoryKept(cron, t) && ValidTrigger(cron, input.trigger)
    requires ScheduleTables.CreateSchedule(t, id, input, nextRunAt).Success?
    ensures var t' := ScheduleTables.CreateSchedule(t, id, input, nextRunAt).value;
            && RowsWellFormed(t') && TriggersValid(cron, t') && ClaimsRecorded(t') && ClaimsOrdered(t')
  {
    hide Tiled;
  }

  lemma CreateKeepsHistory(cron: CronParser, t: Tables, id: Id, input: Input, nextRunAt: Option<int>)
    requires HistoryKept(cron, t) && ValidTrigger(cron, input.trigger)
    requires input.trigger.Every? && nextRunAt.Some? ==> OnGrid(input.trigger.everyMs, input.trigger.anchorMs, nextRunAt.value)
    ensures match ScheduleTables.CreateSchedule(t, id, input, nextRunAt)
            case Success(t') => HistoryKept(cron, t')
            case Failure(_) => true
  {
    var result := ScheduleTables.CreateSchedule(t, id, input, nextRunAt);
    if result.Success? {
      var t' := result.value;
      CreateKeepsClaims(cron, t, id, input, nextRunAt);
      hide ClaimsOrdered, TriggersValid;
      UnchangedGridsStayTiled(cron, t, t', id);
      assert forall r :: IsClaim(t', r) ==> IsClaim(t, r);
    }
  }

  lemma {:induction false} SameClaimsSameTiling(cron: CronParser, t: Tables, t': Tables, id: Id)
    requires HistoryKept(cron, t) && RowsWellFormed(t') && ClaimsRecorded(t')
    requires id in t.schedules && id in t'.schedules && t.schedules[id].def.trigger.Every?
    requires var (row, row') := (t.schedules[id], t'.schedules[id]);
             && row'.def.trigger == row.def.trigger && row'.def.nextRunAt == row.def.nextRunAt
             && row'.since == row.since && row'.firstDue == row.firstDue
    requires forall r :: PresentClaim(t', id, r) <==> PresentClaim(t, id, r)
    requires forall r | PresentClaim(t, id, r) && r in t'.runs ::
               && t'.runs[r].scheduledFor == t.runs[r].scheduledFor
               && t'.runs[r].context == t.runs[r].context
               && t'.runs[r].claimed == t.runs[r].claimed
    ensures Tiled(t', id)
  {
    hide ClaimsOrdered, TriggersValid, OnGrid;
    assert Tiled(t, id);
    var row := t.schedules[id];
    if row.def.nextRunAt.Some? {
      forall point | row.firstDue.value <= point < row.def.nextRunAt.value
        ensures Counted(t', id, point)
      {
        assert Counted(t, id, point);
        var r :| PresentClaim(t, id, r) && Covers(t.runs[r], point);
        assert PresentClaim(t', id, r) && Covers(t'.runs[r], point);
      }
    }
  }

  lemma UnchangedGridsStayTiled(cron: CronParser, t: Tables, t': Tables, id: Id)
    requires HistoryKept(cron, t) && RowsWellFormed(t') && ClaimsRecorded(t')
    requires t'.runs == t.runs
    requires forall other | other in t'.schedules && other != id :: other in t.schedules && t'.schedules[other] == t.schedules[other]
    ensures forall other | other in t'.schedules && other != id && t'.schedules[other].def.trigger.Every? :: Tiled(t', other)
  {
    forall other | other in t'.schedules && other != id && t'.schedules[other].def.trigger.Every?
      ensures Tiled(t', other)
    {
      SameClaimsSameTiling(cron, t, t', other);
    }
  }

  lemma UpdateKeepsHistory(cron: CronParser, t: Tables, id: Id, input: Input, expectedRevision: nat, nextRunAt: Option<int>)
    requires HistoryKept(cron, t) && ValidTrigger(cron, input.trigger)
    requires input.trigger.Every? && nextRunAt.Some? ==> OnGrid(input.trigger.everyMs, input.trigger.anchorMs, nextRunAt.value)
    ensures match ScheduleTables.UpdateSchedule(t, id, input, expectedRevision, nextRunAt)
            case Success(t') => HistoryKept(cron, t')
            case Failure(_) => true
  {
    var result := ScheduleTables.UpdateSchedule(t, id, input, expectedRevision, nextRunAt);
    if result.Success? {
      var t' := result.value;
      assert forall r :: IsClaim(t', r) <==> IsClaim(t, r);
      assert RowsWellFormed(t') && ClaimsRecorded(t') && ClaimsOrdered(t');
      UnchangedGridsStayTiled(cron, t, t', id);
    }
  }

  lemma DeleteKeepsClaims(cron: CronParser, t: Tables, id: Id)
    requires HistoryKept(cron, t)
    ensures var t' := ScheduleTables.DeleteSchedule(t, id);
            && RowsWellFormed(t') && TriggersValid(cron, t') && ClaimsRecorded(t') && ClaimsOrdered(t')
  {
    hide Tiled;
    assert forall r :: IsClaim(ScheduleTables.DeleteSchedule(t, id), r) <==> IsClaim(t, r);
  }

  lemma DeleteKeepsHistory(cron: CronParser, t: Tables, id: Id)
    requires HistoryKept(cron, t)
    ensures HistoryKept(cron, ScheduleTables.DeleteSchedule(t, id))
  {
    var t' := ScheduleTables.DeleteSchedule(t, id);
    DeleteKeepsClaims(cron, t, id);
    hide ClaimsOrdered, TriggersValid, Tiled;
    UnchangedGridsStayTiled(cron, t, t', id);
    if id in t.schedules && t.schedules[id].def.trigger.Every? {
      SameClaimsSameTiling(cron, t, t', id);
    }
  }

  /** Rows that differ only in how their run ended leave the claims as they were. */
  lemma SettlingKeepsHistory(cron: CronParser, t: Tables, t': Tables)
    requires HistoryKept(cron, t)
    requires t'.schedules == t.schedules && t'.runs.Keys == t.runs.Keys
    requires forall r | r in t.runs :: t'.runs[r] == t.runs[r].(status := t'.runs[r].status, exitCode := t'.runs[r].exitCode, error := t'.runs[r].error)
    ensures HistoryKept(cron, t')
  {
    hide Tiled;
    assert forall r :: IsClaim(t', r) <==> IsClaim(t, r);
    assert RowsWellFormed(t') && ClaimsRecorded(t');
    forall r, q | IsClaim(t', r) && IsClaim(t', q) && r != q && t'.runs[r].scheduleId == t'.runs[q].scheduleId
      ensures ClaimBefore(t'.runs[r], t'.runs[q])
    {
      assert ClaimBefore(t.runs[r], t.runs[q]);
    }
    forall id | id in t'.schedules && t'.schedules[id].def.trigger.Every?
      ensures Tiled(t', id)
    {
      SameClaimsSameTiling(cron, t, t', id);
    }
  }

  lemma ManualRunKeepsHistory(cron: CronParser, t: Tables, runId: Id, schedule: Definition)
    requires HistoryKept(cron, t)
    ensures match ScheduleTables.CreateRun(t, runId, schedule)
            case Success(t') => HistoryKept(cron, t')
            case Failure(_) => true
  {
    var result := ScheduleTables.CreateRun(t, runId, schedule);
    if result.Success? {
      var t' := result.value;
      assert forall r :: IsClaim(t', r) <==> IsClaim(t, r);
      assert RowsWellFormed(t') && ClaimsRecorded(t') && ClaimsOrdered(t');
      forall id | id in t'.schedules && t'.schedules[id].def.trigger.Every?
        ensures Tiled(t', id)
      {
        SameClaimsSameTiling(cron, t, t', id);
      }
    }
  }

  /** The context and the next due time `scanDue` computes for a due schedule. */
  ghost predicate ScanClaims(cron: CronParser, schedule: Definition, nowMs: int, nextRunAt: Option<int>, enabled: bool, context: Context)
    requires SoundParser(cron)
  {
    && ValidTrigger(cron, schedule.trigger)
    && schedule.nextRunAt == Some(context.scheduledFor)
    && context.scheduledFor <= nowMs
    && context.missedOccurrences == Missed(cron, schedule.trigger, context.scheduledFor, nowMs)
    && ComputeNextRunAt(cron, schedule.trigger, nowMs) == Success(nextRunAt)
    && enabled == (!schedule.trigger.At? && schedule.enabled)
  }

  lemma ScanAdvances(cron: CronParser, schedule: Definition, nowMs: int, nextRunAt: Option<int>, enabled: bool, context: Context)
    requires SoundParser(cron) && ScanClaims(cron, schedule, nowMs, nextRunAt, enabled, context)
    requires schedule.trigger.Every? ==> OnGrid(schedule.trigger.everyMs, schedule.trigger.anchorMs, context.scheduledFor)
    ensures context.missedOccurrences >= 0
    ensures nextRunAt.Some? ==> context.scheduledFor < nextRunAt.value
    ensures schedule.trigger.Every? ==>
              nextRunAt == Some(context.scheduledFor + (context.missedOccurrences + 1) * schedule.trigger.everyMs)
  {
    NextIsLeastOccurrence(cron, schedule.trigger, nowMs);
    if schedule.trigger.Every? {
      ClaimAdvancesByMissed(schedule.trigger.everyMs, schedule.trigger.anchorMs, context.scheduledFor, nowMs);
      DivisionBounds(nowMs - context.scheduledFor, schedule.trigger.everyMs);
      assert (nowMs == context.scheduledFor) ==> (nowMs - context.scheduledFor) / schedule.trigger.everyMs == 0;
    }
  }

  lemma ClaimKeepsHistory(cron: CronParser, t: Tables, runId: Id, schedule: Definition, nowMs: int, nextRunAt: Option<int>, enabled: bool, context: Context)
    requires SoundParser(cron) && HistoryKept(cron, t)
    requires Claimable(t, schedule, context.scheduledFor) ==> schedule == t.schedules[schedule.id].def
    requires ScanClaims(cron, schedule, nowMs, nextRunAt, enabled, context)
    ensures match ClaimScheduledRun(t, runId, schedule, nextRunAt, enabled, context)
            case Success(Some(t')) => HistoryKept(cron, t')
            case _ => true
  {
    var result := ClaimScheduledRun(t, runId, schedule, nextRunAt, enabled, context);
    if result.Success? && result.value.Some? {
      var t' := result.value.value;
      ClaimIsRecorded(cron, t, t', runId, schedule, nowMs, nextRunAt, enabled, context);
      ClaimKeepsOrder(cron, t, t', runId, schedule, nowMs, nextRunAt, enabled, context);
      ClaimKeepsTiling(cron, t, t', runId, schedule, nowMs, nextRunAt, enabled, context);
    }
  }

  lemma ClaimIsRecorded(cron: CronParser, t: Tables, t': Tables, runId: Id, schedule: Definition, nowMs: int, nextRunAt: Option<int>, enabled: bool, context: Context)
    requires SoundParser(cron) && HistoryKept(cron, t)
    requires ClaimScheduledRun(t, runId, schedule, nextRunAt, enabled, context) == Success(Some(t'))
    requires schedule == t.schedules[schedule.id].def
    requires ScanClaims(cron, schedule, nowMs, nextRunAt, enabled, context)
    ensures RowsWellFormed(t') && TriggersValid(cron, t') && ClaimsRecorded(t')
  {
    assert schedule.trigger.Every? ==> Tiled(t, schedule.id);
    ScanAdvances(cron, schedule, nowMs, nextRunAt, enabled, context);
    hide Tiled, ClaimsOrdered, ScanClaims, GridsTiled;
    forall r | r in t'.runs
      ensures SnapshotKept(t'.runs[r])
      ensures t'.runs[r].scheduled ==> ClaimBehind(t'.schedules[t'.runs[r].scheduleId], t'.runs[r])
    {
      if r != runId {
        assert SnapshotKept(t.runs[r]);
        assert t.runs[r].scheduled ==> IsClaim(t, r);
      }
    }
  }

  lemma ClaimKeepsOrder(cron: CronParser, t: Tables, t': Tables, runId: Id, schedule: Definition, nowMs: int, nextRunAt: Option<int>, enabled: bool, context: Context)
    requires SoundParser(cron) && HistoryKept(cron, t) && RowsWellFormed(t') && ClaimsRecorded(t')
    requires ClaimScheduledRun(t, runId, schedule, nextRunAt, enabled, context) == Success(Some(t'))
    requires schedule == t.schedules[schedule.id].def
    requires ScanClaims(cron, schedule, nowMs, nextRunAt, enabled, context)
    ensures ClaimsOrdered(t')
  {
    var id := schedule.id;
    var row := t.schedules[id];
    forall r, q | IsClaim(t', r) && IsClaim(t', q) && r != q && t'.runs[r].scheduleId == t'.runs[q].scheduleId
      ensures ClaimBefore(t'.runs[r], t'.runs[q])
    {
      if r != runId && q != runId {
        assert IsClaim(t, r) && IsClaim(t, q);
        assert ClaimBefore(t.runs[r], t.runs[q]);
      } else if q == runId {
        assert IsClaim(t, r) && ClaimBehind(row, t.runs[r]);
        if row.def.trigger.Every? && t.runs[r].since == row.since {
          assert Tiled(t, id) && PresentClaim(t, id, r);
        }
      } else {
        assert IsClaim(t, q) && ClaimBehind(row, t.runs[q]);
      }
    }
  }

  lemma ClaimExtendsTiling(cron: CronParser, t: Tables, t': Tables, runId: Id, schedule: Definition, nowMs: int, nextRunAt: Option<int>, enabled: bool, context: Context)
    requires SoundParser(cron) && HistoryKept(cron, t) && RowsWellFormed(t') && ClaimsRecorded(t')
    requires ClaimScheduledRun(t, runId, schedule, nextRunAt, enabled, context) == Success(Some(t'))
    requires schedule == t.schedules[schedule.id].def
    requires ScanClaims(cron, schedule, nowMs, nextRunAt, enabled, context)
    requires schedule.trigger.Every?
    ensures schedule.id in t'.schedules && t'.schedules[schedule.id].def.trigger == schedule.trigger
    ensures Tiled(t', schedule.id)
  {
    var id := schedule.id;
    assert forall r :: PresentClaim(t', id, r) <==> PresentClaim(t, id, r) || r == runId;
    assert Tiled(t, id);
    ScanAdvances(cron, schedule, nowMs, nextRunAt, enabled, context);
    NextIsLeastOccurrence(cron, schedule.trigger, nowMs);
    assert ClaimEnd(t'.runs[runId]) == nextRunAt.value;
    hide ScanClaims, SoundParser, GridsTiled, ClaimsOrdered;
    forall point | t'.schedules[id].firstDue.value <= point < nextRunAt.value
      ensures Counted(t', id, point)
    {
      if point < context.scheduledFor {
        assert Counted(t, id, point);
        var r :| PresentClaim(t, id, r) && Covers(t.runs[r], point);
        assert PresentClaim(t', id, r) && Covers(t'.runs[r], point);
      } else {
        assert PresentClaim(t', id, runId) && Covers(t'.runs[runId], point);
      }
    }
  }

  lemma {:induction false} ClaimLeavesOthersTiled(cron: CronParser, t: Tables, t': Tables, runId: Id, schedule: Definition, nextRunAt: Option<int>, enabled: bool, context: Context, id: Id)
    requires HistoryKept(cron, t) && RowsWellFormed(t') && ClaimsRecorded(t')
    requires ClaimScheduledRun(t, runId, schedule, nextRunAt, enabled, context) == Success(Some(t'))
    requires id in t'.schedules && t'.schedules[id].def.trigger.Every? && id != schedule.id
    ensures Tiled(t', id)
  {
    hide GridsTiled, ClaimsOrdered, Tiled, HistoryKept, ClaimsRecorded, RowsWellFormed;
    assert forall r :: PresentClaim(t', id, r) <==> PresentClaim(t, id, r);
    SameClaimsSameTiling(cron, t, t', id);
  }

  lemma {:induction false} ClaimKeepsTiling(cron: CronParser, t: Tables, t': Tables, runId: Id, schedule: Definition, nowMs: int, nextRunAt: Option<int>, enabled: bool, context: Context)
    requires SoundParser(cron) && HistoryKept(cron, t) && RowsWellFormed(t') && ClaimsRecorded(t')
    requires ClaimScheduledRun(t, runId, schedule, nextRunAt, enabled, context) == Success(Some(t'))
    requires schedule == t.schedules[schedule.id].def
    requires ScanClaims(cron, schedule, nowMs, nextRunAt, enabled, context)
    ensures GridsTiled(t')
  {
    hide Tiled, SoundParser, HistoryKept, ScanClaims, RowsWellFormed, ClaimsRecorded;
    forall id | id in t'.schedules && t'.schedules[id].def.trigger.Every?
      ensures Tiled(t', id)
    {
      if id != schedule.id {
        ClaimLeavesOthersTiled(cron, t, t', runId, schedule, nextRunAt, enabled, context, id);
      } else {
        ClaimExtendsTiling(cron, t, t', runId, schedule, nowMs, nextRunAt, enabled, context);
      }
    }
  }
}
